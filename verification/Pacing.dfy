/** Rate-limited pulls: `HourlyPacer` (scripts/backfill_gp_history.py) and the request loop of
    `SpaceTrackClient` (ingest/spacetrack_client.py), on an exact real clock. A sleep lasts exactly
    as long as asked, and no time passes between the throttle's stamp, the pacer's stamp and the
    send; a request, and anything the caller does between requests, may take any time. */
module Pacing {
  import opened Wrappers

  const WINDOW_S := 3600.0
  const MIN_REQUEST_INTERVAL_S := 3.0
  const BACKOFF_BASE_S := 30.0
  const MAX_RETRIES := 3

  type Elapsed = r: real | r >= 0.0 witness 0.0

  // ----- the two limiters as functions of time ------------------------------------------

  /** `_throttle`: the moment it returns, which is also its new stamp. */
  function ThrottleTo(last: Option<real>, now: real): real {
    if last.Some? && now < last.value + MIN_REQUEST_INTERVAL_S
    then last.value + MIN_REQUEST_INTERVAL_S
    else now
  }

  /** `_prune`: drop the leading stamps that have left the trailing window. */
  function Prune(times: seq<real>, now: real): seq<real> {
    if times != [] && times[0] <= now - WINDOW_S then Prune(times[1..], now) else times
  }

  /** `acquire`: the moment it returns. */
  function PaceTo(times: seq<real>, maxPerHour: int, now: real): real
    requires maxPerHour >= 1
  {
    var live := Prune(times, now);
    if |live| >= maxPerHour && live[0] + WINDOW_S > now then live[0] + WINDOW_S else now
  }

  /** `acquire`: the stamps it leaves behind. */
  function PaceTimes(times: seq<real>, maxPerHour: int, now: real): seq<real>
    requires maxPerHour >= 1
  {
    var at := PaceTo(times, maxPerHour, now);
    Prune(Prune(times, now), at) + [at]
  }

  // ----- what a schedule of sends promises ----------------------------------------------

  ghost predicate Ascending(s: seq<real>) {
    forall i, j :: 0 <= i <= j < |s| ==> s[i] <= s[j]
  }

  /** Entry i + max comes at least an hour after entry i. */
  ghost predicate Capped(s: seq<real>, maxPerHour: int) {
    forall i, j :: 0 <= i < j < |s| && j == i + maxPerHour ==> s[i] + WINDOW_S <= s[j]
  }

  ghost predicate Spaced(s: seq<real>) {
    forall i, j :: 0 <= i < j < |s| && j == i + 1 ==> s[i] + MIN_REQUEST_INTERVAL_S <= s[j]
  }

  ghost function Within(s: seq<real>, lo: real): set<int> {
    set i | 0 <= i < |s| && lo <= s[i] < lo + WINDOW_S
  }

  ghost function Slots(lo: int, n: nat): (slots: set<int>)
    ensures |slots| == n
    ensures forall i :: i in slots <==> lo <= i < lo + n
  {
    if n == 0 then {} else Slots(lo, n - 1) + {lo + n - 1}
  }

  /** A capped schedule puts at most `maxPerHour` sends in every half-open hour, wherever the hour
      starts. */
  lemma CappedMeansHourlyCap(s: seq<real>, maxPerHour: nat, lo: real)
    requires Ascending(s) && Capped(s, maxPerHour) && maxPerHour >= 1
    ensures |Within(s, lo)| <= maxPerHour
  {
    var first := 0;
    while first < |s| && s[first] < lo
      invariant first <= |s|
      invariant forall i :: 0 <= i < first ==> s[i] < lo
    {
      first := first + 1;
    }
    var slots := Slots(first, maxPerHour);
    if first + maxPerHour < |s| {
      assert s[first] + WINDOW_S <= s[first + maxPerHour];
    }
    assert Within(s, lo) <= slots;
    SubsetSize(Within(s, lo), slots);
  }

  // ----- the pacer ----------------------------------------------------------------------

  ghost predicate TailAt(times: seq<real>, stamps: seq<real>, i: nat) {
    i < |times| <= |stamps| ==> times[i] == stamps[|stamps| - |times| + i]
  }

  ghost predicate IsTail(times: seq<real>, stamps: seq<real>) {
    |times| <= |stamps| && forall i: nat :: TailAt(times, stamps, i)
  }

  lemma TailIsSlice(times: seq<real>, stamps: seq<real>)
    ensures IsTail(times, stamps) <==> |times| <= |stamps| && times == stamps[|stamps| - |times|..]
  {
    if IsTail(times, stamps) {
      forall i | 0 <= i < |times| ensures times[i] == stamps[|stamps| - |times|..][i] {
        assert TailAt(times, stamps, i);
      }
    }
  }

  /** `times` is the tail of every stamp so far, and what was dropped is an hour old. */
  ghost predicate PacerSound(times: seq<real>, stamps: seq<real>, maxPerHour: int, now: real) {
    && maxPerHour >= 1
    && |times| <= maxPerHour
    && IsTail(times, stamps)
    && (forall i :: 0 <= i < |stamps| - |times| ==> stamps[i] <= now - WINDOW_S)
    && (forall i :: 0 <= i < |stamps| ==> stamps[i] <= now)
    && Ascending(stamps)
    && Capped(stamps, maxPerHour)
  }

  lemma {:induction false} PruneIsTail(times: seq<real>, now: real)
    ensures |Prune(times, now)| <= |times|
    ensures Prune(times, now) == times[|times| - |Prune(times, now)|..]
    ensures forall i :: 0 <= i < |times| - |Prune(times, now)| ==> times[i] <= now - WINDOW_S
    ensures Prune(times, now) != [] ==> Prune(times, now)[0] > now - WINDOW_S
  {
    if times != [] && times[0] <= now - WINDOW_S {
      PruneIsTail(times[1..], now);
    }
  }

  lemma PruneKeepsSound(times: seq<real>, stamps: seq<real>, maxPerHour: int, before: real, now: real)
    requires PacerSound(times, stamps, maxPerHour, before) && before <= now
    ensures PacerSound(Prune(times, now), stamps, maxPerHour, now)
  {
    PruneIsTail(times, now);
    var live := Prune(times, now);
    TailIsSlice(times, stamps);
    TailIsSlice(live, stamps);
    forall i | 0 <= i < |stamps| - |live| ensures stamps[i] <= now - WINDOW_S {
      if i >= |stamps| - |times| {
        assert stamps[i] == times[i - (|stamps| - |times|)];
      }
    }
  }

  lemma StampKeepsSound(times: seq<real>, stamps: seq<real>, maxPerHour: int, at: real)
    requires PacerSound(times, stamps, maxPerHour, at) && |times| < maxPerHour
    ensures PacerSound(times + [at], stamps + [at], maxPerHour, at)
  {
    var all := stamps + [at];
    TailIsSlice(times, stamps);
    TailIsSlice(times + [at], all);
    forall i, j | 0 <= i < j < |all| && j == i + maxPerHour ensures all[i] + WINDOW_S <= all[j] {
      if j == |stamps| {
        assert i < |stamps| - |times|;
      } else {
        assert stamps[i] + WINDOW_S <= stamps[j];
      }
    }
  }

  /** One more stamp. When the pacer had to wait, the new stamp is exactly an hour after the one
      `maxPerHour` places before it. */
  lemma PaceKeepsSound(times: seq<real>, stamps: seq<real>, maxPerHour: int, before: real, now: real)
    requires PacerSound(times, stamps, maxPerHour, before) && before <= now
    ensures var at := PaceTo(times, maxPerHour, now);
      && now <= at
      && PacerSound(PaceTimes(times, maxPerHour, now), stamps + [at], maxPerHour, at)
      && (at != now ==> |stamps| >= maxPerHour && at == stamps[|stamps| - maxPerHour] + WINDOW_S)
  {
    var at := PaceTo(times, maxPerHour, now);
    var live := Prune(times, now);
    PruneKeepsSound(times, stamps, maxPerHour, before, now);
    PruneKeepsSound(live, stamps, maxPerHour, now, at);
    PruneIsTail(times, now);
    PruneIsTail(live, at);
    if |live| >= maxPerHour {
      assert TailAt(live, stamps, 0);
      assert live[0] == stamps[|stamps| - maxPerHour];
    }
    StampKeepsSound(Prune(live, at), stamps, maxPerHour, at);
  }

  class Clock {
    var now: real

    constructor (at: real)
      ensures now == at
    {
      now := at;
    }

    method Sleep(seconds: Elapsed)
      modifies this
      ensures now == old(now) + seconds
    {
      now := now + seconds;
    }
  }

  class HourlyPacer {
    const maxPerHour: int
    const clock: Clock
    var times: seq<real>

    constructor (maxPerHour: int, clock: Clock)
      ensures this.maxPerHour == maxPerHour && this.clock == clock && times == []
    {
      this.maxPerHour := maxPerHour;
      this.clock := clock;
      times := [];
    }

    method PruneAt(t: real)
      modifies this
      ensures times == Prune(old(times), t)
    {
      var cutoff := t - WINDOW_S;
      while times != [] && times[0] <= cutoff
        invariant Prune(times, t) == Prune(old(times), t)
        decreases |times|
      {
        times := times[1..];
      }
    }

    /** With a cap below one the deque is empty when its head is read, and the call raises. */
    method Acquire() returns (slept: real)
      requires maxPerHour >= 1
      modifies this, clock
      ensures clock.now == PaceTo(old(times), maxPerHour, old(clock.now))
      ensures times == PaceTimes(old(times), maxPerHour, old(clock.now))
      ensures slept == clock.now - old(clock.now)
    {
      var t := clock.now;
      PruneAt(t);
      PruneTwice(old(times), t);
      slept := 0.0;
      if |times| >= maxPerHour {
        var wait := times[0] + WINDOW_S - t;
        if wait > 0.0 {
          clock.Sleep(wait);
          slept := wait;
          t := clock.now;
          PruneAt(t);
        }
      }
      times := times + [t];
    }
  }

  lemma PruneTwice(times: seq<real>, now: real)
    ensures Prune(Prune(times, now), now) == Prune(times, now)
  {
    PruneIsTail(times, now);
  }

  // ----- the server ---------------------------------------------------------------------

  datatype Body = Payload | ThrottleStub | LoginFailed

  datatype Reply =
    | NoReply                          // requests.Timeout or requests.ConnectionError
    | Broken                           // any other exception of the HTTP library
    | Http(status: int, body: Body)

  datatype Kind = Login | Query

  datatype RequestError = Transport | HttpError(status: int) | RateLimited | AuthError

  function AnswerTo(answer: nat -> Reply, n: nat): Reply { answer(n) }

  /** The far end: the n-th request ever sent gets `answer(n)` and takes `took(n)` seconds. */
  class Server {
    const answer: nat -> Reply
    const took: nat -> Elapsed
    const clock: Clock
    var sends: seq<real>     // when each request was sent, logins and queries alike
    var queries: seq<real>   // the GETs among them

    constructor (answer: nat -> Reply, took: nat -> Elapsed, clock: Clock)
      ensures this.answer == answer && this.took == took && this.clock == clock
      ensures sends == [] && queries == []
    {
      this.answer, this.took, this.clock := answer, took, clock;
      sends, queries := [], [];
    }

    method Exchange(kind: Kind) returns (reply: Reply)
      modifies this, clock
      ensures sends == old(sends) + [old(clock.now)]
      ensures queries == old(queries) + (if kind.Query? then [old(clock.now)] else [])
      ensures reply == AnswerTo(answer, |old(sends)|)
      ensures clock.now == old(clock.now) + took(|old(sends)|)
    {
      reply := AnswerTo(answer, |sends|);
      var seconds := took(|sends|);
      sends := sends + [clock.now];
      if kind.Query? {
        queries := queries + [clock.now];
      }
      clock.Sleep(seconds);
    }
  }

  // ----- what one attempt means ---------------------------------------------------------

  datatype Verdict = Return(status: int) | Raise(error: RequestError) | Retry

  predicate IsStub(reply: Reply) {
    reply.Http? && reply.status == 200 && reply.body.ThrottleStub?
  }

  predicate Retryable(reply: Reply) {
    || reply.NoReply?
    || (reply.Http? && (reply.status == 429 || reply.status >= 500))
    || IsStub(reply)
  }

  /** The branch the retry loop takes on a reply to attempt `attempt` (counted from 0). The HTTP
      library's raise_for_status raises for 400 to 599 only. */
  function Judge(attempt: nat, reply: Reply): Verdict {
    match reply
    case NoReply => if attempt >= MAX_RETRIES then Raise(Transport) else Retry
    case Broken => Raise(Transport)
    case Http(status, _) =>
      if status == 429 || status >= 500 then
        if attempt >= MAX_RETRIES && status < 600 then Raise(HttpError(status)) else Retry
      else if 400 <= status then Raise(HttpError(status))
      else if IsStub(reply) then if attempt >= MAX_RETRIES then Raise(RateLimited) else Retry
      else Return(status)
  }

  lemma JudgeRetries(attempt: nat, reply: Reply)
    ensures Judge(attempt, reply).Retry? <==>
      if attempt < MAX_RETRIES then Retryable(reply) else reply.Http? && reply.status >= 600
    ensures Judge(attempt, reply).Return? ==> Judge(attempt, reply).status < 400 && !IsStub(reply)
  {
  }

  // ----- how many attempts a request makes ----------------------------------------------

  /** A request whose first attempt is the k-th send is still going after n attempts. */
  ghost predicate Continues(answer: nat -> Reply, k: nat, n: nat) {
    forall i :: 0 <= i < n ==> RetriedAt(answer, k, i)
  }

  predicate RetriedAt(answer: nat -> Reply, k: nat, i: nat) { Judge(i, AnswerTo(answer, k + i)).Retry? }

  /** It ends with attempt n, counted from 1. */
  ghost predicate EndsAt(answer: nat -> Reply, k: nat, n: nat) {
    n >= 1 && Continues(answer, k, n - 1) && !RetriedAt(answer, k, n - 1)
  }

  predicate Beyond599(answer: nat -> Reply, n: nat) {
    AnswerTo(answer, n).Http? && AnswerTo(answer, n).status >= 600
  }

  /** A request makes more than n >= 4 attempts if and only if its first three replies are worth a retry
      and every one from the fourth to the n-th has a status of 600 or more, which no branch of the loop
      stops on. */
  lemma MoreAttemptsIff(answer: nat -> Reply, k: nat, n: nat)
    requires n >= 4
    ensures Continues(answer, k, n) <==>
      && (forall i :: k <= i < k + 3 ==> Retryable(AnswerTo(answer, i)))
      && (forall i :: k + 3 <= i < k + n ==> Beyond599(answer, i))
  {
    forall i: nat ensures RetriedAt(answer, k, i) <==>
      if i < 3 then Retryable(AnswerTo(answer, k + i)) else Beyond599(answer, k + i)
    {
      JudgeRetries(i, AnswerTo(answer, k + i));
    }
    if Continues(answer, k, n) {
      forall i | k <= i < k + 3 ensures Retryable(AnswerTo(answer, i)) { assert RetriedAt(answer, k, i - k); }
      forall i | k + 3 <= i < k + n ensures Beyond599(answer, i) { assert RetriedAt(answer, k, i - k); }
    }
  }

  /** It ends with the first reply below 600 from the fourth on, if it gets that far; with statuses below
      600 it therefore makes at most four attempts. */
  lemma EndsAtFirstBelow600(answer: nat -> Reply, k: nat, n: nat)
    requires n >= 4 && Continues(answer, k, n - 1)
    ensures EndsAt(answer, k, n) <==> !Beyond599(answer, k + n - 1)
  {
    JudgeRetries(n - 1, AnswerTo(answer, k + n - 1));
  }

  /** A request never ends if and only if its first three replies are worth a retry and all later ones have
      a status of 600 or more. */
  lemma RetriedForeverIff(answer: nat -> Reply, k: nat)
    ensures (forall n: nat :: Continues(answer, k, n)) <==>
      && (forall i :: k <= i < k + 3 ==> Retryable(AnswerTo(answer, i)))
      && (forall i :: k + 3 <= i ==> Beyond599(answer, i))
  {
    if forall n: nat :: Continues(answer, k, n) {
      assert Continues(answer, k, 4);
      MoreAttemptsIff(answer, k, 4);
      forall i | k + 3 <= i ensures Beyond599(answer, i) {
        assert Continues(answer, k, i - k + 1);
        MoreAttemptsIff(answer, k, i - k + 1);
      }
    }
    if (forall i :: k <= i < k + 3 ==> Retryable(AnswerTo(answer, i))) &&
      (forall i :: k + 3 <= i ==> Beyond599(answer, i))
    {
      forall n: nat ensures Continues(answer, k, n) {
        MoreAttemptsIff(answer, k, n + 4);
        forall i | 0 <= i < n ensures RetriedAt(answer, k, i) { assert i < n + 4; }
      }
    }
  }

  /** A server that always answers 600 is asked for ever. */
  lemma Always600NeverEnds(n: nat)
    ensures Continues((i: nat) => Http(600, Payload), 0, n)
  {
    var answer: nat -> Reply := (i: nat) => Http(600, Payload);
    RetriedForeverIff(answer, 0);
    forall i: nat ensures Retryable(AnswerTo(answer, i)) && Beyond599(answer, i) { }
    assert Continues(answer, 0, n);
  }

  lemma OneMoreAttempt(answer: nat -> Reply, k: nat, n: nat)
    requires Continues(answer, k, n)
    ensures var verdict := Judge(n, AnswerTo(answer, k + n));
      if verdict.Retry? then Continues(answer, k, n + 1)
      else EndsAt(answer, k, n + 1) && Decided(AnswerTo(answer, k + n), ResultOf(verdict))
  {
    assert RetriedAt(answer, k, n) <==> Judge(n, AnswerTo(answer, k + n)).Retry?;
    if !RetriedAt(answer, k, n) { JudgeSettles(n, AnswerTo(answer, k + n)); }
  }

  lemma AtMostFour(answer: nat -> Reply, k: nat)
    requires StandardStatuses(answer)
    ensures !Continues(answer, k, 4)
  {
    MoreAttemptsIff(answer, k, 4);
    assert !Beyond599(answer, k + 3);
  }

  function ResultOf(verdict: Verdict): Result<int, RequestError>
    requires !verdict.Retry?
  {
    if verdict.Return? then Success(verdict.status) else Failure(verdict.error)
  }

  function Backoff(attempt: nat): Elapsed {
    if attempt == 0 then BACKOFF_BASE_S else 2.0 * Backoff(attempt - 1)
  }

  /** 30, 60 and 120 seconds between the four attempts a request usually has, doubling from there. */
  lemma BackoffDoubles(attempt: nat)
    ensures Backoff(0) == 30.0 && Backoff(1) == 60.0 && Backoff(2) == 120.0
    ensures Backoff(attempt + 1) == 2.0 * Backoff(attempt)
  {
    assert Backoff(2) == 2.0 * Backoff(1);
  }

  /** Which replies are worth a retry before the fourth attempt. */
  lemma RetryableIff(reply: Reply)
    ensures Retryable(reply) <==>
      match reply
      case NoReply => true
      case Broken => false
      case Http(status, body) => status == 429 || status >= 500 || (status == 200 && body == ThrottleStub)
  {
  }

  /** RFC 9110, section 15: a status code is in the range 100 to 599. */
  ghost predicate StandardStatuses(answer: nat -> Reply) {
    forall n :: AnswerTo(answer, n).Http? ==> AnswerTo(answer, n).status < 600
  }

  // ----- the client ---------------------------------------------------------------------

  /** What holds between any two statements of a run, whatever time passes: the pacer's stamps are
      the query times, every two consecutive sends are three seconds apart, and when the throttle's
      stamp is older than the last send, that send had waited a full hour for its slot. */
  ghost predicate RunSound(sends: seq<real>, queries: seq<real>, times: seq<real>, maxPerHour: int,
                           last: Option<real>, loggedIn: bool, now: real) {
    && PacerSound(times, queries, maxPerHour, now)
    && Spaced(sends) && Spaced(queries)
    && (!loggedIn ==> queries == [])
    && EndsWith(sends, queries)
    && StampSound(sends, queries, maxPerHour, last, now)
  }

  /** Once there has been a query, there are no more logins. */
  ghost predicate EndsWith(sends: seq<real>, queries: seq<real>) {
    queries != [] ==> sends != [] && sends[|sends| - 1] == queries[|queries| - 1]
  }

  ghost predicate StampSound(sends: seq<real>, queries: seq<real>, maxPerHour: int,
                             last: Option<real>, now: real) {
    sends != [] ==>
      && sends[|sends| - 1] <= now
      && last.Some? && last.value <= sends[|sends| - 1]
      && (last.value == sends[|sends| - 1] || LateSlot(queries, maxPerHour))
  }

  /** The last query was sent exactly an hour after the query `maxPerHour` before it. */
  ghost predicate LateSlot(queries: seq<real>, maxPerHour: int) {
    && 1 <= maxPerHour < |queries|
    && queries[|queries| - 1] == queries[|queries| - 1 - maxPerHour] + WINDOW_S
  }

  lemma SpacedAppend(s: seq<real>, at: real)
    requires Spaced(s)
    requires s != [] ==> s[|s| - 1] + MIN_REQUEST_INTERVAL_S <= at
    ensures Spaced(s + [at])
  {
  }

  /** Waiting changes nothing that matters. */
  lemma TimePasses(sends: seq<real>, queries: seq<real>, times: seq<real>, maxPerHour: int,
                   last: Option<real>, loggedIn: bool, before: real, now: real)
    requires RunSound(sends, queries, times, maxPerHour, last, loggedIn, before) && before <= now
    ensures RunSound(sends, queries, times, maxPerHour, last, loggedIn, now)
  {
  }

  /** The throttle alone does not space two queries when the pacer delayed the earlier one after
      the throttle had stamped it; then the later one is spaced by the pacer, because the slots
      they wait for are themselves three seconds apart. */
  lemma QuerySpacedFromLast(sends: seq<real>, queries: seq<real>, times: seq<real>, maxPerHour: int,
                            last: Option<real>, now: real)
    requires RunSound(sends, queries, times, maxPerHour, last, true, now) && sends != []
    ensures sends[|sends| - 1] + MIN_REQUEST_INTERVAL_S
         <= PaceTo(times, maxPerHour, ThrottleTo(last, now))
  {
    var stamp := ThrottleTo(last, now);
    var at := PaceTo(times, maxPerHour, stamp);
    PaceKeepsSound(times, queries, maxPerHour, now, stamp);
    if last.value != sends[|sends| - 1] {
      var n := |queries| - 1;
      var all := queries + [at];
      assert all[n + 1 - maxPerHour] + WINDOW_S <= all[n + 1];
      assert queries[n - maxPerHour] + MIN_REQUEST_INTERVAL_S <= queries[n - maxPerHour + 1];
    }
  }

  /** Throttle first, then the pacer, then the query. */
  lemma QueryKeepsSound(sends: seq<real>, queries: seq<real>, times: seq<real>, maxPerHour: int,
                        last: Option<real>, now: real)
    requires RunSound(sends, queries, times, maxPerHour, last, true, now)
    ensures var stamp := ThrottleTo(last, now);
      var at := PaceTo(times, maxPerHour, stamp);
      RunSound(sends + [at], queries + [at], PaceTimes(times, maxPerHour, stamp), maxPerHour,
               Some(stamp), true, at)
  {
    var stamp := ThrottleTo(last, now);
    var at := PaceTo(times, maxPerHour, stamp);
    PaceKeepsSound(times, queries, maxPerHour, now, stamp);
    if sends != [] {
      QuerySpacedFromLast(sends, queries, times, maxPerHour, last, now);
    }
    SpacedAppend(sends, at);
    SpacedAppend(queries, at);
  }

  lemma LoginKeepsSound(sends: seq<real>, times: seq<real>, maxPerHour: int, last: Option<real>,
                        now: real, loggedIn: bool)
    requires RunSound(sends, [], times, maxPerHour, last, false, now)
    ensures var stamp := ThrottleTo(last, now);
      RunSound(sends + [stamp], [], times, maxPerHour, Some(stamp), loggedIn, stamp)
  {
    SpacedAppend(sends, ThrottleTo(last, now));
  }

  lemma FourDecide(answer: nat -> Reply, k: nat, attempts: nat, budget: nat,
                   r: Option<Result<int, RequestError>>)
    requires StandardStatuses(answer) && Watched(answer, k, attempts, budget, r)
    ensures attempts <= 4 && (budget >= 4 ==> r.Some?)
  {
    AtMostFour(answer, k);
    var i :| 0 <= i < 4 && !RetriedAt(answer, k, i);
    assert i >= if r.Some? then attempts - 1 else attempts;
  }

  /** What a login reply raises, if anything. */
  function LoginOutcome(reply: Reply): Option<RequestError> {
    match reply
    case NoReply => Some(Transport)
    case Broken => Some(Transport)
    case Http(status, body) =>
      if 400 <= status < 600 then Some(HttpError(status))
      else if body.LoginFailed? then Some(AuthError)
      else None
  }

  class SpaceTrackClient {
    const clock: Clock
    const pacer: HourlyPacer
    const server: Server
    var lastRequestAt: Option<real>
    var loggedIn: bool
    var loginError: Option<RequestError>

    constructor (clock: Clock, pacer: HourlyPacer, server: Server)
      requires pacer.clock == clock && server.clock == clock
      requires pacer.maxPerHour >= 1 && pacer.times == [] && server.sends == []
      requires server.queries == []
      ensures this.clock == clock && this.pacer == pacer && this.server == server
      ensures Wired() && Sound() && !loggedIn
    {
      this.clock, this.pacer, this.server := clock, pacer, server;
      lastRequestAt, loggedIn, loginError := None, false, None;
    }

    ghost predicate Wired() {
      pacer.clock == clock && server.clock == clock && pacer.maxPerHour >= 1
    }

    ghost predicate Sound()
      reads this, clock, pacer, server
    {
      RunSound(server.sends, server.queries, pacer.times, pacer.maxPerHour, lastRequestAt, loggedIn, clock.now)
    }

    method Throttle()
      modifies this`lastRequestAt, clock
      ensures clock.now == ThrottleTo(old(lastRequestAt), old(clock.now))
      ensures lastRequestAt == Some(clock.now)
    {
      if lastRequestAt.Some? {
        var wait := MIN_REQUEST_INTERVAL_S - (clock.now - lastRequestAt.value);
        if wait > 0.0 {
          clock.Sleep(wait);
        }
      }
      lastRequestAt := Some(clock.now);
    }

    method PostLogin() returns (reply: Reply)
      requires Wired() && Sound() && !loggedIn
      modifies this`lastRequestAt, clock, server
      ensures Sound() && old(clock.now) <= clock.now
      ensures RunSound(server.sends, server.queries, pacer.times, pacer.maxPerHour, lastRequestAt, true, clock.now)
      ensures server.queries == old(server.queries)
      ensures |server.sends| == |old(server.sends)| + 1
      ensures reply == AnswerTo(server.answer, |old(server.sends)|)
    {
      ghost var sends, now := server.sends, clock.now;
      LoginKeepsSound(sends, pacer.times, pacer.maxPerHour, lastRequestAt, now, true);
      LoginKeepsSound(sends, pacer.times, pacer.maxPerHour, lastRequestAt, now, false);
      Throttle();
      ghost var at := clock.now;
      reply := server.Exchange(Login);
      TimePasses(server.sends, server.queries, pacer.times, pacer.maxPerHour, lastRequestAt, true, at, clock.now);
      TimePasses(server.sends, server.queries, pacer.times, pacer.maxPerHour, lastRequestAt, false, at, clock.now);
    }

    /** A rejected login is remembered and raised again without a request; a failed one is raised and
        tried again by the next call. */
    method LogIn() returns (error: Option<RequestError>)
      requires Wired() && Sound()
      modifies this, clock, server
      ensures Sound() && old(clock.now) <= clock.now
      ensures loggedIn <==> error.None?
      ensures server.queries == old(server.queries)
      ensures |server.sends| == |old(server.sends)|
        + (if old(loggedIn) || old(loginError).Some? then 0 else 1)
      ensures old(loginError).Some? && !old(loggedIn) ==> error == loginError == old(loginError)
      ensures !old(loggedIn) && old(loginError).None? ==>
        var reply := AnswerTo(server.answer, |old(server.sends)|);
        && error == LoginOutcome(reply)
        && loginError == (if error == Some(AuthError) then error else None)
    {
      if loggedIn {
        return None;
      }
      if loginError.Some? {
        return loginError;
      }
      var reply := PostLogin();
      match reply
      case NoReply => error := Some(Transport);
      case Broken => error := Some(Transport);
      case Http(status, body) =>
        if 400 <= status < 600 {
          error := Some(HttpError(status));
        } else if body.LoginFailed? {
          loginError := Some(AuthError);
          error := loginError;
        } else {
          loggedIn := true;
          error := None;
        }
    }

    method Pause(seconds: Elapsed)
      requires Wired() && Sound()
      modifies clock
      ensures Sound() && clock.now == old(clock.now) + seconds
    {
      clock.Sleep(seconds);
      TimePasses(server.sends, server.queries, pacer.times, pacer.maxPerHour, lastRequestAt, loggedIn,
                 old(clock.now), clock.now);
    }

    /** Throttle, pacer, send. */
    method SendQuery() returns (reply: Reply)
      requires Wired() && Sound() && loggedIn
      modifies this`lastRequestAt, clock, pacer, server
      ensures Sound() && |server.sends| == |old(server.sends)| + 1
      ensures server.sends[..|old(server.sends)|] == old(server.sends)
      ensures old(clock.now) <= server.sends[|old(server.sends)|] <= clock.now
      ensures |server.queries| == |old(server.queries)| + 1
      ensures reply == AnswerTo(server.answer, |old(server.sends)|)
    {
      ghost var now := clock.now;
      QueryKeepsSound(server.sends, server.queries, pacer.times, pacer.maxPerHour, lastRequestAt, now);
      PaceKeepsSound(pacer.times, server.queries, pacer.maxPerHour, now, ThrottleTo(lastRequestAt, now));
      Throttle();
      var _ := pacer.Acquire();
      ghost var at := clock.now;
      reply := server.Exchange(Query);
      TimePasses(server.sends, server.queries, pacer.times, pacer.maxPerHour, lastRequestAt, true, at, clock.now);
    }

    /** One pass of the retry loop up to the reply. */
    method Attempt(attempts: nat) returns (reply: Reply)
      requires Wired() && Sound() && loggedIn
      requires RetriedUntil(server.sends, server.answer, attempts)
      requires BackedOff(server.sends, server.answer, attempts, clock.now)
      modifies this`lastRequestAt, clock, pacer, server
      ensures Sound() && old(clock.now) <= clock.now
      ensures |server.sends| == |old(server.sends)| + 1
      ensures |server.queries| == |old(server.queries)| + 1
      ensures RetriedUntil(server.sends, server.answer, attempts + 1)
      ensures server.sends[|server.sends| - 1] <= clock.now
      ensures reply == AnswerTo(server.answer, |server.sends| - 1)
    {
      ghost var sends, now := server.sends, clock.now;
      reply := SendQuery();
      RetriedOnceMore(sends, server.sends, server.answer, attempts, now);
    }

    /** One whole pass: the attempt, the verdict, and the backoff when there is to be another. */
    method Pass(attempts: nat) returns (verdict: Verdict)
      requires Wired() && Sound() && loggedIn
      requires RetriedUntil(server.sends, server.answer, attempts)
      requires BackedOff(server.sends, server.answer, attempts, clock.now)
      modifies this`lastRequestAt, clock, pacer, server
      ensures Sound() && old(clock.now) <= clock.now
      ensures |server.sends| == |old(server.sends)| + 1
      ensures |server.queries| == |old(server.queries)| + 1
      ensures RetriedUntil(server.sends, server.answer, attempts + 1)
      ensures verdict == Judge(attempts, AnswerTo(server.answer, |server.sends| - 1))
      ensures verdict.Retry? ==> BackedOff(server.sends, server.answer, attempts + 1, clock.now)
      ensures verdict.Return? ==>
        verdict.status < 400 && !IsStub(AnswerTo(server.answer, |server.sends| - 1))
    {
      var reply := Attempt(attempts);
      JudgeRetries(attempts, reply);
      verdict := Judge(attempts, reply);
      if verdict.Retry? {
        Pause(Backoff(attempts));
      }
    }

    /** The retry loop of `_request`, followed for at most `budget` attempts: None when it is still going
        by then. The result is `Judge`'s verdict on the last reply, every earlier reply was worth a retry,
        the pauses between attempts double, and a throttle stub is never returned as a result. */
    method Retrying(budget: nat) returns (r: Option<Result<int, RequestError>>, attempts: nat)
      requires Wired() && Sound() && loggedIn
      modifies this`lastRequestAt, clock, pacer, server
      ensures Sound() && old(clock.now) <= clock.now
      ensures |server.queries| == |old(server.queries)| + attempts
      ensures |server.sends| == |old(server.sends)| + attempts && attempts <= budget
      ensures RetriedUntil(server.sends, server.answer, attempts)
      ensures Watched(server.answer, |old(server.sends)|, attempts, budget, r)
    {
      attempts := 0;
      var verdict := Retry;
      ghost var k := |server.sends|;
      while verdict.Retry? && attempts < budget
        invariant Sound() && old(clock.now) <= clock.now && attempts <= budget
        invariant |server.queries| == |old(server.queries)| + attempts
        invariant |server.sends| == k + attempts
        invariant RetriedUntil(server.sends, server.answer, attempts)
        invariant verdict.Retry? ==>
          BackedOff(server.sends, server.answer, attempts, clock.now) && Continues(server.answer, k, attempts)
        invariant !verdict.Retry? ==>
          EndsAt(server.answer, k, attempts)
          && Decided(AnswerTo(server.answer, k + attempts - 1), ResultOf(verdict))
        decreases budget - attempts
      {
        verdict := Pass(attempts);
        OneMoreAttempt(server.answer, k, attempts);
        attempts := attempts + 1;
      }
      r := if verdict.Retry? then None else Some(ResultOf(verdict));
    }

    /** `_request`: log in, then attempt until a reply decides, followed for at most `budget` attempts. With
        statuses in the standard's range four attempts always decide. */
    method Request(budget: nat) returns (r: Option<Result<int, RequestError>>, attempts: nat)
      requires Wired() && Sound()
      modifies this, clock, pacer, server
      ensures Sound() && old(clock.now) <= clock.now
      ensures |server.queries| == |old(server.queries)| + attempts
      ensures attempts <= budget && attempts <= |server.sends|
      ensures !loggedIn ==> attempts == 0 && r.Some? && r.value.Failure?
      ensures RetriedUntil(server.sends, server.answer, attempts)
      ensures loggedIn ==> Watched(server.answer, |server.sends| - attempts, attempts, budget, r)
      ensures StandardStatuses(server.answer) ==> attempts <= 4 && (budget >= 4 ==> r.Some?)
    {
      var refused := LogIn();
      if refused.Some? {
        return Some(Failure(refused.value)), 0;
      }
      ghost var k := |server.sends|;
      r, attempts := Retrying(budget);
      if StandardStatuses(server.answer) { FourDecide(server.answer, k, attempts, budget, r); }
    }
  }

  /** A request whose first attempt is the k-th send, watched for at most `budget` attempts: it ends with
      the attempt whose reply decides, or is still going when the budget is used up. */
  ghost predicate Watched(answer: nat -> Reply, k: nat, attempts: nat, budget: nat,
                          r: Option<Result<int, RequestError>>) {
    match r
    case Some(result) =>
      EndsAt(answer, k, attempts) && Decided(AnswerTo(answer, k + attempts - 1), result)
    case None => attempts == budget && Continues(answer, k, budget)
  }

  /** The reply to the last attempt settles the request: a status below 400 is returned unless it is a
      throttle stub, and anything else is raised as what it is. */
  ghost predicate Decided(reply: Reply, r: Result<int, RequestError>) {
    match reply
    case NoReply => r == Failure(Transport)
    case Broken => r == Failure(Transport)
    case Http(status, body) =>
      if status == 200 && body == ThrottleStub then r == Failure(RateLimited)
      else if status < 400 then r == Success(status)
      else status < 600 && r == Failure(HttpError(status))
  }

  lemma JudgeSettles(attempt: nat, reply: Reply)
    requires !Judge(attempt, reply).Retry?
    ensures Decided(reply, ResultOf(Judge(attempt, reply)))
  {
  }

  /** Send k was answered with something to retry, and send k + 1 waited out the i-th backoff. */
  ghost predicate RetryGap(sends: seq<real>, answer: nat -> Reply, k: int, i: nat) {
    && 0 <= k < |sends| - 1
    && Retryable(AnswerTo(answer, k))
    && sends[k] + Backoff(i) <= sends[k + 1]
  }

  /** The last `attempts` sends are one request: all but the final reply were worth a retry, and
      after the i-th attempt at least 30 * 2^i seconds passed before the next. */
  ghost predicate RetriedUntil(sends: seq<real>, answer: nat -> Reply, attempts: nat) {
    forall k: int, i: nat :: i + 1 < attempts && k == |sends| - attempts + i ==>
      RetryGap(sends, answer, k, i)
  }

  /** A reply to retry was followed by its backoff. */
  ghost predicate BackedOff(sends: seq<real>, answer: nat -> Reply, attempts: nat, now: real) {
    attempts > 0 ==>
      && sends != []
      && Retryable(AnswerTo(answer, |sends| - 1))
      && sends[|sends| - 1] + Backoff(attempts - 1) <= now
  }

  lemma RetriedOnceMore(sends: seq<real>, more: seq<real>, answer: nat -> Reply, attempts: nat, now: real)
    requires RetriedUntil(sends, answer, attempts) && BackedOff(sends, answer, attempts, now)
    requires |more| == |sends| + 1 && more[..|sends|] == sends && now <= more[|sends|]
    ensures RetriedUntil(more, answer, attempts + 1)
  {
    forall k: int, i: nat | i + 1 < attempts + 1 && k == |more| - (attempts + 1) + i
      ensures RetryGap(more, answer, k, i)
    {
      if i + 1 < attempts {
        assert RetryGap(sends, answer, k, i);
        assert more[k] == sends[k] && more[k + 1] == sends[k + 1];
      } else {
        assert more[k] == sends[k];
      }
    }
  }

  /** A whole run: any number of requests, with any time spent between them and any replies, watched at
      any moment. A request is followed for as many attempts as its budget says; one that is still going
      then is where the watching stops. */
  method Session(client: SpaceTrackClient, requests: seq<(Elapsed, nat)>) returns (ended: bool)
    requires client.Wired() && client.Sound()
    modifies client, client.clock, client.pacer, client.server
    ensures forall i, j :: 0 <= i && j == i + 1 && j < |client.server.sends| ==>
      client.server.sends[i] + 3.0 <= client.server.sends[j]
    ensures forall i, j :: 0 <= i && j == i + 1 && j < |client.server.queries| ==>
      client.server.queries[i] + 3.0 <= client.server.queries[j]
    ensures forall lo: real ::
      |Within(client.server.queries, lo)| <= client.pacer.maxPerHour
    ensures StandardStatuses(client.server.answer) && (forall i :: 0 <= i < |requests| ==> requests[i].1 >= 4) ==>
      ended
  {
    ended := true;
    var n := 0;
    while n < |requests| && ended
      invariant client.Wired() && client.Sound() && n <= |requests|
      invariant
        StandardStatuses(client.server.answer) && (forall i :: 0 <= i < |requests| ==> requests[i].1 >= 4) ==>
          ended
    {
      client.Pause(requests[n].0);
      var r, _ := client.Request(requests[n].1);
      ended := r.Some?;
      n := n + 1;
    }
    forall lo: real
      ensures |Within(client.server.queries, lo)| <= client.pacer.maxPerHour
    {
      CappedMeansHourlyCap(client.server.queries, client.pacer.maxPerHour, lo);
    }
  }

  /** The sends counted in an hour are those of its 3600 seconds, the last instant excluded. */
  lemma WithinIs(s: seq<real>, lo: real)
    ensures Within(s, lo) == set i | 0 <= i < |s| && lo <= s[i] < lo + 3600.0
  {
  }

  // ----- the other order ----------------------------------------------------------------

  /** Queries with the pacer first and the throttle second: when the pacer stamped them, when they were
      sent, the pacer's deque, and the time. */
  datatype PacedFirst = PacedFirst(stamps: seq<real>, sends: seq<real>, times: seq<real>, now: real)

  /** The run with the given pauses before its queries and no login. */
  function RunPacedFirst(pauses: seq<Elapsed>, maxPerHour: int): PacedFirst
    requires maxPerHour >= 1
  {
    if pauses == [] then PacedFirst([], [], [], 0.0)
    else
      var run := RunPacedFirst(pauses[..|pauses| - 1], maxPerHour);
      var now := run.now + pauses[|pauses| - 1];
      var stamp := PaceTo(run.times, maxPerHour, now);
      var last := if run.sends == [] then None else Some(run.sends[|run.sends| - 1]);
      var at := ThrottleTo(last, stamp);
      PacedFirst(run.stamps + [stamp], run.sends + [at], PaceTimes(run.times, maxPerHour, now), at)
  }

  /** Each send goes out at its stamp, or three seconds after the send before it. */
  ghost predicate StampedOrSpaced(stamps: seq<real>, sends: seq<real>) {
    && |stamps| == |sends|
    && (forall i :: 0 <= i < |sends| ==> stamps[i] <= sends[i])
    && (forall i, j :: 0 <= i && j == i + 1 && j < |sends| && stamps[j] != sends[j] ==>
      sends[j] == sends[i] + MIN_REQUEST_INTERVAL_S)
    && (sends != [] ==> stamps[0] == sends[0])
  }

  lemma {:induction false} PacedFirstSound(pauses: seq<Elapsed>, maxPerHour: int)
    requires maxPerHour >= 1
    ensures var run := RunPacedFirst(pauses, maxPerHour);
      && PacerSound(run.times, run.stamps, maxPerHour, run.now)
      && StampedOrSpaced(run.stamps, run.sends) && Spaced(run.sends)
      && (run.sends != [] ==> run.sends[|run.sends| - 1] == run.now)
  {
    if pauses != [] {
      var front := pauses[..|pauses| - 1];
      PacedFirstSound(front, maxPerHour);
      var run := RunPacedFirst(front, maxPerHour);
      var now := run.now + pauses[|pauses| - 1];
      var stamp := PaceTo(run.times, maxPerHour, now);
      var last := if run.sends == [] then None else Some(run.sends[|run.sends| - 1]);
      var at := ThrottleTo(last, stamp);
      PaceKeepsSound(run.times, run.stamps, maxPerHour, run.now, now);
      PacerWaits(PaceTimes(run.times, maxPerHour, now), run.stamps + [stamp], maxPerHour, stamp, at);
      StampAppend(run.stamps, run.sends, stamp, at);
    }
  }

  lemma StampAppend(stamps: seq<real>, sends: seq<real>, stamp: real, at: real)
    requires StampedOrSpaced(stamps, sends) && Spaced(sends)
    requires at == ThrottleTo(if sends == [] then None else Some(sends[|sends| - 1]), stamp)
    ensures StampedOrSpaced(stamps + [stamp], sends + [at]) && Spaced(sends + [at])
  {
    SpacedAppend(sends, at);
  }

  lemma PacerWaits(times: seq<real>, stamps: seq<real>, maxPerHour: int, before: real, now: real)
    requires PacerSound(times, stamps, maxPerHour, before) && before <= now
    ensures PacerSound(times, stamps, maxPerHour, now)
  {
  }

  lemma {:induction false} SpacedTogether(sends: seq<real>, i: nat, j: nat, n: nat)
    requires Spaced(sends) && i <= j && j + n < |sends|
    ensures sends[i + n] + MIN_REQUEST_INTERVAL_S * (j - i) as real <= sends[j + n]
    decreases j
  {
    if i < j {
      SpacedTogether(sends, i, j - 1, n);
      var a, b := j - 1 + n, j + n;
      assert sends[a] + MIN_REQUEST_INTERVAL_S <= sends[b];
    }
  }

  /** Following throttled sends back to the last one that went out at its stamp. */
  lemma {:induction false} BackToStamp(stamps: seq<real>, sends: seq<real>, i: nat) returns (first: nat)
    requires StampedOrSpaced(stamps, sends) && i < |sends|
    ensures first <= i && stamps[first] == sends[first]
    ensures sends[i] == sends[first] + MIN_REQUEST_INTERVAL_S * (i - first) as real
  {
    first := i;
    if stamps[i] != sends[i] {
      var h := i - 1;
      assert sends[i] == sends[h] + MIN_REQUEST_INTERVAL_S;
      first := BackToStamp(stamps, sends, h);
    }
  }

  /** Without an unpaced send the other order keeps the cap too: a throttled send is as late as the
      undelayed one before it plus three seconds a place, and so is the one max_per_hour places on. */
  lemma OtherOrderKeepsCapWithoutLogin(pauses: seq<Elapsed>, maxPerHour: nat, lo: real)
    requires maxPerHour >= 1
    ensures |Within(RunPacedFirst(pauses, maxPerHour).sends, lo)| <= maxPerHour
  {
    var run := RunPacedFirst(pauses, maxPerHour);
    PacedFirstSound(pauses, maxPerHour);
    forall i, j | 0 <= i < j < |run.sends| && j == i + maxPerHour
      ensures run.sends[i] + WINDOW_S <= run.sends[j]
    {
      var first := BackToStamp(run.stamps, run.sends, i);
      SpacedTogether(run.sends, first, i, maxPerHour);
      var later := first + maxPerHour;
      assert run.stamps[first] + WINDOW_S <= run.stamps[later];
    }
    SpacedAscends(run.sends);
    CappedMeansHourlyCap(run.sends, maxPerHour, lo);
  }

  lemma SpacedAscends(s: seq<real>)
    requires Spaced(s)
    ensures Ascending(s)
  {
    forall i, j | 0 <= i <= j < |s| ensures s[i] <= s[j] {
      SpacedTogether(s, i, j, 0);
    }
  }

  /** Why the throttle comes first: a login is throttled but not paced. After one at time 0, a cap of one
      query an hour lets two queries out within the hour that starts at the first, because the throttle
      delays the first after the pacer has stamped it. */
  lemma PacerBeforeThrottleBreaksTheCap()
    ensures
      var login := Some(0.0);
      var stamp0 := PaceTo([], 1, 0.0);
      var send0 := ThrottleTo(login, stamp0);
      var times1 := PaceTimes([], 1, 0.0);
      var stamp1 := PaceTo(times1, 1, send0);
      var send1 := ThrottleTo(Some(send0), stamp1);
      send0 < send1 < send0 + WINDOW_S && |Within([send0, send1], send0)| == 2
  {
    assert PaceTo([], 1, 0.0) == 0.0;
    assert PaceTimes([], 1, 0.0) == [0.0];
    assert Prune([0.0], 3.0) == [0.0];
    assert PaceTo([0.0], 1, 3.0) == 3600.0;
    assert Within([3.0, 3600.0], 3.0) == {0, 1};
  }

  /** A login is accepted by a reply whose status is no error and whose body is no rejection; a rejection
      is told from an HTTP error and from a broken connection. */
  lemma LoginIs(reply: Reply)
    ensures LoginOutcome(reply).None? <==>
      reply.Http? && (reply.status < 400 || reply.status > 599) && !reply.body.LoginFailed?
    ensures LoginOutcome(reply) == Some(AuthError) <==>
      reply.Http? && (reply.status < 400 || reply.status > 599) && reply.body.LoginFailed?
    ensures LoginOutcome(reply) == Some(Transport) <==> reply.NoReply? || reply.Broken?
    ensures forall n :: LoginOutcome(reply) == Some(HttpError(n)) <==>
      reply.Http? && reply.status == n && 400 <= n <= 599
  {
  }

  /** The cap is on any stretch of 3600 seconds. */
  lemma CappedIs(s: seq<real>, maxPerHour: int)
    ensures Capped(s, maxPerHour) <==>
      forall i, j :: 0 <= i < j < |s| && j == i + maxPerHour ==> s[i] + 3600.0 <= s[j]
  {
  }
}
