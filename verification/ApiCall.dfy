/** One call to the WARP API over several ways to it: retries, back-off and fail-over. Waits are in
    milliseconds. */
module ApiCall {
  import opened Bytes

  const API_ATTEMPTS := 5
  const API_BACKOFF_BASE_MS := 900
  const API_BACKOFF_CAP_MS := 15_000
  const API_RETRY_AFTER_CAP_SECS := 30

  /** What one attempt gets: no answer, a status that is none of HTTP's, or an answer, with the seconds
      it asks to wait, whether its body is the API's envelope and whether it reads as an account. */
  datatype Reply =
    | NoAnswer
    | NoStatus
    | Answer(status: nat, retryAfter: Option<nat>, envelope: bool, readable: bool)

  datatype Failure = NothingAsked | Api | IdentityRefused

  datatype Outcome = Account | Undecodable | Failed(failure: Failure) | OutsideMark | NoWay | NoEch

  datatype Call = Call(
    way: nat, turnedAway: seq<bool>, lastError: Failure, asked: seq<nat>, slept: nat,
    answered: Option<nat>, outcome: Option<Outcome>)

  predicate Success(status: nat) { 200 <= status < 300 }

  predicate RefusesIdentity(status: nat) { status == 401 || status == 404 || status == 410 }

  predicate WorthRetrying(status: nat) { status == 429 || status == 408 || 500 <= status < 600 }

  /** An answer of the API itself. */
  predicate FromApi(r: Reply) { r.Answer? && (Success(r.status) || r.envelope) }

  function Exponential(attempt: nat): nat {
    if attempt == 0 then API_BACKOFF_BASE_MS else 2 * Exponential(attempt - 1)
  }

  /** The wait before a retry, for the random number `r`. */
  function Backoff(attempt: nat, r: nat): nat {
    var capped := Least(Exponential(Least(attempt, 5)), API_BACKOFF_CAP_MS);
    capped / 2 + r % (capped / 3 + 1)
  }

  /** The wait a server asked for, before the attempt after `attempt`: none after the last. */
  function RetryAfterWait(attempt: nat, asked: Option<nat>): nat {
    if asked.Some? && attempt + 1 < API_ATTEMPTS then 1000 * Least(asked.value, API_RETRY_AFTER_CAP_SECS) else 0
  }

  /** The way `step` on from `way`, round the `ways` there are. */
  function On(way: nat, step: nat, ways: nat): (r: nat)
    requires way < ways && step <= ways
    ensures r < ways
  {
    if way + step < ways then way + step else way + step - ways
  }

  /** The way `step` on from `way`, or the first after it that has not turned the call away. */
  function NextFrom(way: nat, turnedAway: seq<bool>, step: nat): (r: nat)
    requires way < |turnedAway| && 1 <= step
    ensures r < |turnedAway|
    decreases |turnedAway| + 1 - step
  {
    if step > |turnedAway| then way
    else
      var next := On(way, step, |turnedAway|);
      if !turnedAway[next] then next else NextFrom(way, turnedAway, step + 1)
  }

  function NextWay(way: nat, turnedAway: seq<bool>): (r: nat)
    requires way < |turnedAway|
    ensures r < |turnedAway|
  {
    NextFrom(way, turnedAway, 1)
  }

  predicate AllTurned(turnedAway: seq<bool>) { forall i | 0 <= i < |turnedAway| :: turnedAway[i] }

  predicate Sane(c: Call) { c.way < |c.turnedAway| }

  /** What an answer that is no success says of the identity. */
  function ErrorOf(ways: nat, r: Reply): Failure
    requires r.Answer?
  {
    if RefusesIdentity(r.status) && (FromApi(r) || ways == 1 || r.status != 404) then IdentityRefused else Api
  }

  function MoveOn(c: Call): (r: Call)
    requires Sane(c)
    ensures Sane(r)
  {
    c.(way := NextWay(c.way, c.turnedAway))
  }

  /** Another server than the API answered, with nothing worth asking again. */
  function TurnAway(c: Call): (r: Call)
    requires Sane(c)
    ensures Sane(r)
  {
    var d := c.(turnedAway := c.turnedAway[c.way := true]);
    if AllTurned(d.turnedAway) then d.(outcome := Some(Failed(d.lastError))) else MoveOn(d)
  }

  /** What the answer to the attempt makes of the call. */
  function Heed(c: Call, attempt: nat, r: Reply): (d: Call)
    requires Sane(c)
    ensures Sane(d)
  {
    var ways := |c.turnedAway|;
    match r
    case NoAnswer => MoveOn(c.(lastError := Api))
    case NoStatus =>
      if ways > 1 then TurnAway(c.(lastError := Api))
      else c.(lastError := Api, outcome := Some(Failed(Api)))
    case Answer(status, retryAfter, _, readable) =>
      var d := if ways > 1 && FromApi(r) then c.(answered := Some(c.way)) else c;
      if Success(status) then d.(outcome := Some(if readable then Account else Undecodable))
      else
        var e := d.(lastError := ErrorOf(ways, r));
        var waited := e.(slept := e.slept + RetryAfterWait(attempt, retryAfter));
        if ways > 1 && !FromApi(r) then
          if WorthRetrying(status) then MoveOn(waited) else TurnAway(e)
        else if !WorthRetrying(status) then e.(outcome := Some(Failed(e.lastError)))
        else waited
  }

  function Begin(c: Call, attempt: nat, random: nat): Call {
    c.(slept := c.slept + if attempt > 0 then Backoff(attempt - 1, random) else 0, asked := c.asked + [c.way])
  }

  /** A call after `attempts` attempts, or as it ended before. */
  function Run(ways: nat, replies: nat -> Reply, randoms: nat -> nat, attempts: nat): (c: Call)
    requires ways > 0
    ensures Sane(c) && |c.turnedAway| == ways
  {
    if attempts == 0 then Call(0, seq(ways, _ => false), NothingAsked, [], 0, None, None)
    else
      var c := Run(ways, replies, randoms, attempts - 1);
      if c.outcome.Some? then c
      else Heed(Begin(c, attempts - 1, randoms(attempts - 1)), attempts - 1, replies(attempts - 1))
  }

  function OutcomeOf(c: Call): Outcome {
    if c.outcome.Some? then c.outcome.value else Failed(c.lastError)
  }

  /** What the answer to one attempt changes: `ended` when it ends the call. */
  method Judge(c: Call, attempt: nat, reply: Reply) returns (way: nat, turnedAway: seq<bool>, lastError: Failure,
      slept: nat, answered: Option<nat>, ended: Option<Outcome>)
    requires Sane(c) && c.outcome.None?
    ensures Heed(c, attempt, reply) == Call(way, turnedAway, lastError, c.asked, slept, answered, ended)
  {
    hide RetryAfterWait, NextWay;
    way, turnedAway, lastError, slept, answered, ended := c.way, c.turnedAway, c.lastError, c.slept, c.answered, None;
    var ways := |turnedAway|;
    match reply {
      case NoAnswer =>
        lastError := Api;
        way := NextWay(way, turnedAway);
      case NoStatus =>
        lastError := Api;
        if ways > 1 {
          turnedAway := turnedAway[way := true];
          if !AllTurned(turnedAway) {
            way := NextWay(way, turnedAway);
            return;
          }
        }
        ended := Some(Failed(lastError));
      case Answer(status, retryAfter, envelope, readable) =>
        var fromApi := Success(status) || envelope;
        if ways > 1 && fromApi {
          answered := Some(way);
        }
        if Success(status) {
          ended := Some(if readable then Account else Undecodable);
          return;
        }
        lastError :=
          if RefusesIdentity(status) && (fromApi || ways == 1 || status != 404) then IdentityRefused else Api;
        if ways > 1 && !fromApi {
          if WorthRetrying(status) {
            slept := slept + RetryAfterWait(attempt, retryAfter);
          } else {
            turnedAway := turnedAway[way := true];
            if AllTurned(turnedAway) {
              ended := Some(Failed(lastError));
              return;
            }
          }
          way := NextWay(way, turnedAway);
          return;
        }
        if !WorthRetrying(status) {
          ended := Some(Failed(lastError));
          return;
        }
        slept := slept + RetryAfterWait(attempt, retryAfter);
    }
  }

  /** The call as the program makes it: none at all for a name that would be looked up outside the socket mark, no
      way to the API, or no ECH key where one is wanted. */
  method ApiCallBy(ways: nat, outsideMark: bool, noEch: bool, replies: nat -> Reply, randoms: nat -> nat)
    returns (outcome: Outcome, asked: seq<nat>, slept: nat, answered: Option<nat>)
    ensures outsideMark ==> outcome == OutsideMark
    ensures !outsideMark && ways == 0 ==> outcome == NoWay
    ensures !outsideMark && ways > 0 && noEch ==> outcome == NoEch
    ensures outsideMark || ways == 0 || noEch ==> asked == [] && slept == 0 && answered.None?
    ensures !outsideMark && ways > 0 && !noEch ==>
              var c := Run(ways, replies, randoms, 5);
              outcome == OutcomeOf(c) && asked == c.asked && slept == c.slept && answered == c.answered
  {
    hide Backoff, Heed;
    outcome, asked, slept, answered := NoWay, [], 0, None;
    if outsideMark {
      return OutsideMark, [], 0, None;
    }
    if ways == 0 {
      return;
    }
    if noEch {
      return NoEch, [], 0, None;
    }
    var way: nat, turnedAway, lastError, attempt := 0, seq(ways, _ => false), NothingAsked, 0;
    while attempt < API_ATTEMPTS
      invariant attempt <= API_ATTEMPTS && |turnedAway| == ways && way < ways
      invariant Run(ways, replies, randoms, attempt) == Call(way, turnedAway, lastError, asked, slept, answered, None)
    {
      if attempt > 0 {
        slept := slept + Backoff(attempt - 1, randoms(attempt));
      }
      asked := asked + [way];
      var begun := Call(way, turnedAway, lastError, asked, slept, answered, None);
      var ended;
      way, turnedAway, lastError, slept, answered, ended := Judge(begun, attempt, replies(attempt));
      attempt := attempt + 1;
      assert Run(ways, replies, randoms, attempt) == Call(way, turnedAway, lastError, asked, slept, answered, ended);
      if ended.Some? {
        outcome := ended.value;
        Ended(ways, replies, randoms, attempt, API_ATTEMPTS);
        return;
      }
    }
    outcome := Failed(lastError);
  }

  /** A call that has ended stays as it is. */
  lemma {:induction false} Ended(ways: nat, replies: nat -> Reply, randoms: nat -> nat, m: nat, k: nat)
    requires ways > 0 && m <= k && Run(ways, replies, randoms, m).outcome.Some?
    ensures Run(ways, replies, randoms, k) == Run(ways, replies, randoms, m)
    decreases k - m
  {
    if m < k {
      Ended(ways, replies, randoms, m, k - 1);
    }
  }

  // ---- Ways ----

  /** Every way is some step on from every other. */
  lemma StepTo(way: nat, to: nat, ways: nat) returns (step: nat)
    requires way < ways && to < ways
    ensures 1 <= step <= ways && On(way, step, ways) == to
  {
    step := if to > way then to - way else to + ways - way;
  }

  /** Whether every way strictly fewer than `step` steps on has turned the call away. */
  ghost predicate Skips(way: nat, turnedAway: seq<bool>, from: nat, step: nat)
    requires way < |turnedAway| && step <= |turnedAway|
  {
    forall d | from <= d < step :: turnedAway[On(way, d, |turnedAway|)]
  }

  /** The next way is the first standing one, and all that were passed over have turned the call away. */
  lemma {:induction false} NextSkips(way: nat, turnedAway: seq<bool>, from: nat, to: nat) returns (step: nat)
    requires way < |turnedAway| && 1 <= from <= to <= |turnedAway| && !turnedAway[On(way, to, |turnedAway|)]
    ensures from <= step <= to && NextFrom(way, turnedAway, from) == On(way, step, |turnedAway|)
    ensures !turnedAway[On(way, step, |turnedAway|)] && Skips(way, turnedAway, from, step)
    decreases |turnedAway| - from
  {
    if !turnedAway[On(way, from, |turnedAway|)] {
      step := from;
    } else {
      step := NextSkips(way, turnedAway, from + 1, to);
    }
  }

  lemma NextStands(way: nat, turnedAway: seq<bool>)
    requires way < |turnedAway| && !AllTurned(turnedAway)
    ensures !turnedAway[NextWay(way, turnedAway)]
  {
    var to :| 0 <= to < |turnedAway| && !turnedAway[to];
    var step := StepTo(way, to, |turnedAway|);
    var first := NextSkips(way, turnedAway, 1, step);
  }

  lemma HeedStands(c: Call, attempt: nat, r: Reply)
    requires Sane(c) && !c.turnedAway[c.way] && c.outcome.None?
    ensures var d := Heed(c, attempt, r); d.outcome.None? ==> !d.turnedAway[d.way]
  {
    hide NextWay, AllTurned, RetryAfterWait;
    assert !AllTurned(c.turnedAway) by { Standing(c.turnedAway, c.way); }
    NextStands(c.way, c.turnedAway);
    var turned := c.turnedAway[c.way := true];
    if !AllTurned(turned) {
      NextStands(c.way, turned);
    }
  }

  lemma Standing(turnedAway: seq<bool>, way: nat)
    requires way < |turnedAway| && !turnedAway[way]
    ensures !AllTurned(turnedAway)
  {
  }

  /** No way that the machine has marked is asked. */
  lemma {:induction false} MarkedIsSkipped(ways: nat, replies: nat -> Reply, randoms: nat -> nat, m: nat)
    requires ways > 0 && Run(ways, replies, randoms, m).outcome.None?
    ensures var c := Run(ways, replies, randoms, m); !c.turnedAway[c.way]
  {
    hide Heed, Backoff;
    if m > 0 {
      MarkedIsSkipped(ways, replies, randoms, m - 1);
      var c := Run(ways, replies, randoms, m - 1);
      HeedStands(Begin(c, m - 1, randoms(m - 1)), m - 1, replies(m - 1));
    }
  }

  /** The ways asked so far: one each attempt, the last of them the way before the answer. */
  lemma {:induction false} AskedEach(ways: nat, replies: nat -> Reply, randoms: nat -> nat, m: nat)
    requires ways > 0
    ensures var c := Run(ways, replies, randoms, m);
            && |c.asked| <= m && (c.outcome.None? ==> |c.asked| == m)
            && (forall k | 0 <= k < |c.asked| ::
                  Run(ways, replies, randoms, k).outcome.None? && c.asked[k] == Run(ways, replies, randoms, k).way)
  {
    hide Heed, Backoff;
    if m > 0 {
      AskedEach(ways, replies, randoms, m - 1);
      var c := Run(ways, replies, randoms, m - 1);
      if c.outcome.None? {
        HeedAsked(Begin(c, m - 1, randoms(m - 1)), m - 1, replies(m - 1));
      }
    }
  }

  lemma HeedAsked(c: Call, attempt: nat, r: Reply)
    requires Sane(c)
    ensures Heed(c, attempt, r).asked == c.asked
  {
    hide NextWay, RetryAfterWait;
  }

  /** What an answer can do to the way: keep it, because the API itself answered or there is one way; or
      go on to the next, with only the present way turned away if any. */
  lemma HeedWay(c: Call, attempt: nat, r: Reply)
    requires Sane(c) && c.outcome.None? && Heed(c, attempt, r).outcome.None?
    ensures var d := Heed(c, attempt, r);
            && (d.turnedAway == c.turnedAway || d.turnedAway == c.turnedAway[c.way := true])
            && ((d.way == c.way && d.turnedAway == c.turnedAway && (FromApi(r) || |c.turnedAway| == 1))
                || d.way == NextWay(c.way, d.turnedAway))
  {
    hide NextWay, RetryAfterWait, AllTurned;
  }

  /** Whether way `v` has turned away, or was asked after attempt `i`. */
  predicate Covered(c: Call, v: nat, i: nat)
    requires v < |c.turnedAway|
  {
    c.turnedAway[v] || exists t :: i < t < |c.asked| && c.asked[t] == v
  }

  /** The call stands `d` steps past way `w`, and every way in between is covered. */
  ghost predicate Swept(c: Call, w: nat, i: nat, d: nat) {
    && Sane(c) && w < |c.turnedAway| && 1 <= d <= |c.turnedAway| && c.way == On(w, d, |c.turnedAway|)
    && forall e | 1 <= e < d :: Covered(c, On(w, e, |c.turnedAway|), i)
  }

  lemma OnOn(w: nat, d: nat, s: nat, n: nat)
    requires w < n && d < n && d + s <= n
    ensures On(On(w, d, n), s, n) == On(w, d + s, n)
  {
  }

  /** Going on from a way that is not yet `w` again sweeps on, and stops at `w` at the latest while `w`
      stands. */
  lemma SweepOn(c: Call, e: Call, w: nat, i: nat, d: nat) returns (d': nat)
    requires Swept(c, w, i, d) && d < |c.turnedAway| == |e.turnedAway| && !e.turnedAway[w]
    requires forall v | 0 <= v < |c.turnedAway| && c.turnedAway[v] :: e.turnedAway[v]
    requires e.asked == c.asked + [c.way] && i < |c.asked| && e.way == NextWay(c.way, e.turnedAway)
    ensures Swept(e, w, i, d')
  {
    hide Covered, NextFrom;
    var n := |c.turnedAway|;
    OnOn(w, d, n - d, n);
    var step := NextSkips(c.way, e.turnedAway, 1, n - d);
    d' := d + step;
    OnOn(w, d, step, n);
    forall x | 1 <= x < d'
      ensures Covered(e, On(w, x, n), i)
    {
      if x < d {
        CoveredStays(c, e, On(w, x, n), i);
      } else if x == d {
        JustAsked(c, e, i);
      } else {
        OnOn(w, d, x - d, n);
        TurnedCovers(e, On(w, x, n), i);
      }
    }
  }

  lemma JustAsked(c: Call, e: Call, i: nat)
    requires e.asked == c.asked + [c.way] && i < |c.asked| && c.way < |e.turnedAway|
    ensures Covered(e, c.way, i)
  {
    assert e.asked[|c.asked|] == c.way;
  }

  lemma TurnedCovers(e: Call, v: nat, i: nat)
    requires v < |e.turnedAway| && e.turnedAway[v]
    ensures Covered(e, v, i)
  {
  }

  lemma CoveredStays(c: Call, e: Call, v: nat, i: nat)
    requires v < |c.turnedAway| == |e.turnedAway| && Covered(c, v, i)
    requires forall x | 0 <= x < |c.turnedAway| && c.turnedAway[x] :: e.turnedAway[x]
    requires e.asked == c.asked + [c.way]
    ensures Covered(e, v, i)
  {
    if !c.turnedAway[v] {
      var t :| i < t < |c.asked| && c.asked[t] == v;
      assert e.asked[t] == v;
    }
  }

  /** The run from attempt `i`, which asked `w` and moved on, up to attempt `k`, with `w` not asked in
      between: it has swept the ways after `w`. */
  lemma {:induction false} Sweep(ways: nat, replies: nat -> Reply, randoms: nat -> nat, i: nat, k: nat)
    returns (d: nat)
    requires ways > 0 && i < k && Run(ways, replies, randoms, k).outcome.None?
    requires var c := Run(ways, replies, randoms, i); c.outcome.None? && !(FromApi(replies(i)) || ways == 1)
    requires var w := Run(ways, replies, randoms, i).way;
             && !Run(ways, replies, randoms, k).turnedAway[w]
             && forall t | i < t < k :: Run(ways, replies, randoms, t).way != w
    ensures Swept(Run(ways, replies, randoms, k), Run(ways, replies, randoms, i).way, i, d)
    decreases k
  {
    hide Heed, Backoff, NextWay, Covered;
    var c := Run(ways, replies, randoms, k - 1);
    var e := Run(ways, replies, randoms, k);
    var w := Run(ways, replies, randoms, i).way;
    var begun := Begin(c, k - 1, randoms(k - 1));
    AskedEach(ways, replies, randoms, k - 1);
    HeedWay(begun, k - 1, replies(k - 1));
    HeedAsked(begun, k - 1, replies(k - 1));
    if i == k - 1 {
      d := Leave(e, w, i);
    } else {
      var d0 := Sweep(ways, replies, randoms, i, k - 1);
      NotFullCircle(c, w, i, d0);
      if e.way == c.way && e.turnedAway == c.turnedAway {
        d := d0;
        forall x | 1 <= x < d
          ensures Covered(e, On(w, x, ways), i)
        {
          CoveredStays(c, e, On(w, x, ways), i);
        }
      } else {
        d := SweepOn(c, e, w, i, d0);
      }
    }
  }

  /** The first step away from `w`. */
  lemma Leave(e: Call, w: nat, i: nat) returns (d: nat)
    requires w < |e.turnedAway| && !e.turnedAway[w] && e.way == NextWay(w, e.turnedAway)
    ensures Swept(e, w, i, d)
  {
    hide NextFrom;
    d := NextSkips(w, e.turnedAway, 1, |e.turnedAway|);
  }

  lemma NotFullCircle(c: Call, w: nat, i: nat, d: nat)
    requires Swept(c, w, i, d) && c.way != w
    ensures d < |c.turnedAway|
  {
  }

  /** A way is asked again only because the API itself answered by it, or once every other way that
      still stands has been asked since. */
  lemma AskedAgain(ways: nat, replies: nat -> Reply, randoms: nat -> nat, i: nat, k: nat)
    requires ways > 0 && i < k && Run(ways, replies, randoms, k).outcome.None?
    requires var w := Run(ways, replies, randoms, i).way;
             && Run(ways, replies, randoms, k).way == w
             && forall t | i < t < k :: Run(ways, replies, randoms, t).way != w
    ensures var w, c := Run(ways, replies, randoms, i).way, Run(ways, replies, randoms, k);
            FromApi(replies(i)) || forall v | 0 <= v < ways && v != w :: Covered(c, v, i)
  {
    hide Heed, Backoff;
    var w, c := Run(ways, replies, randoms, i).way, Run(ways, replies, randoms, k);
    MarkedIsSkipped(ways, replies, randoms, k);
    StillOpen(ways, replies, randoms, i, k);
    if !FromApi(replies(i)) && ways > 1 {
      var d := Sweep(ways, replies, randoms, i, k);
      FullCircle(c, w, i, d);
    }
  }

  lemma FullCircle(c: Call, w: nat, i: nat, d: nat)
    requires Swept(c, w, i, d) && c.way == w
    ensures forall v | 0 <= v < |c.turnedAway| && v != w :: Covered(c, v, i)
  {
    var n := |c.turnedAway|;
    assert d == n;
    forall v | 0 <= v < n && v != w
      ensures Covered(c, v, i)
    {
      var step := StepTo(w, v, n);
    }
  }

  lemma {:induction false} StillOpen(ways: nat, replies: nat -> Reply, randoms: nat -> nat, i: nat, k: nat)
    requires ways > 0 && i <= k && Run(ways, replies, randoms, k).outcome.None?
    ensures Run(ways, replies, randoms, i).outcome.None?
    decreases k - i
  {
    hide Heed, Backoff;
    if i < k {
      StillOpen(ways, replies, randoms, i, k - 1);
    }
  }

  /** Whether an answer turns the call away: it is not the API's, it is not worth asking for again, and there
      is another way. */
  predicate TurnsAway(ways: nat, r: Reply) {
    ways > 1 && (r.NoStatus? || (r.Answer? && !FromApi(r) && !WorthRetrying(r.status)))
  }

  lemma HeedMarks(c: Call, attempt: nat, r: Reply)
    requires Sane(c)
    ensures Heed(c, attempt, r).turnedAway ==
            if TurnsAway(|c.turnedAway|, r) then c.turnedAway[c.way := true] else c.turnedAway
  {
    hide NextWay, AllTurned, RetryAfterWait;
  }

  /** Whether one of the first `m` answers came by way `w` and turned the call away. */
  ghost predicate TurnedBy(ways: nat, replies: nat -> Reply, randoms: nat -> nat, m: nat, w: nat)
    requires ways > 0
  {
    exists t: nat :: t < m && TurnsAway(ways, replies(t)) && Run(ways, replies, randoms, t).way == w
  }

  lemma TurnedByNext(ways: nat, replies: nat -> Reply, randoms: nat -> nat, m: nat, w: nat)
    requires ways > 0
    ensures TurnedBy(ways, replies, randoms, m + 1, w) <==>
            || TurnedBy(ways, replies, randoms, m, w)
            || (TurnsAway(ways, replies(m)) && Run(ways, replies, randoms, m).way == w)
  {
    hide Run, TurnsAway;
  }

  /** A way is marked exactly when some answer by it turned the call away. */
  lemma {:induction false} MarkedIff(ways: nat, replies: nat -> Reply, randoms: nat -> nat, m: nat, w: nat)
    requires ways > 0 && w < ways && Run(ways, replies, randoms, m).outcome.None?
    ensures Run(ways, replies, randoms, m).turnedAway[w] <==> TurnedBy(ways, replies, randoms, m, w)
  {
    hide Heed, Backoff, TurnsAway, TurnedBy;
    if m == 0 {
      NothingTurned(ways, replies, randoms, w);
    } else {
      TurnedByNext(ways, replies, randoms, m - 1, w);
      StillOpen(ways, replies, randoms, m - 1, m);
      MarkedIff(ways, replies, randoms, m - 1, w);
      var c := Run(ways, replies, randoms, m - 1);
      HeedMarks(Begin(c, m - 1, randoms(m - 1)), m - 1, replies(m - 1));
    }
  }

  lemma NothingTurned(ways: nat, replies: nat -> Reply, randoms: nat -> nat, w: nat)
    requires ways > 0
    ensures !TurnedBy(ways, replies, randoms, 0, w)
  {
  }

  /** Over every run of answers, once an answer has turned the call away the way it came by is never asked
      again. */
  lemma NeverAskedOnceTurned(ways: nat, replies: nat -> Reply, randoms: nat -> nat, t: nat, m: nat)
    requires ways > 0 && t < m && Run(ways, replies, randoms, m).outcome.None? && TurnsAway(ways, replies(t))
    ensures Run(ways, replies, randoms, m).way != Run(ways, replies, randoms, t).way
  {
    hide Run, TurnsAway;
    assert TurnedBy(ways, replies, randoms, m, Run(ways, replies, randoms, t).way);
    MarkedIsSkipped(ways, replies, randoms, m);
    MarkedIff(ways, replies, randoms, m, Run(ways, replies, randoms, t).way);
  }

  // ---- Bounds ----

  /** The most a call can have slept after `m` attempts. */
  function MostSleep(m: nat): nat {
    if m == 0 then 0
    else
      var last := m - 1;
      MostSleep(m - 1) + (if last > 0 then MostBackoff(last - 1) else 0)
      + (if last + 1 < API_ATTEMPTS then 1000 * API_RETRY_AFTER_CAP_SECS else 0)
  }

  function MostBackoff(attempt: nat): nat {
    var capped := Least(Exponential(Least(attempt, 5)), API_BACKOFF_CAP_MS);
    capped / 2 + capped / 3
  }

  lemma HeedSleep(c: Call, attempt: nat, r: Reply)
    requires Sane(c)
    ensures Heed(c, attempt, r).slept <=
            c.slept + if attempt + 1 < API_ATTEMPTS then 1000 * API_RETRY_AFTER_CAP_SECS else 0
  {
    hide NextWay;
  }

  lemma {:induction false} SleepWithin(ways: nat, replies: nat -> Reply, randoms: nat -> nat, m: nat)
    requires ways > 0
    ensures Run(ways, replies, randoms, m).slept <= MostSleep(m)
  {
    hide Heed, Exponential;
    if m > 0 {
      SleepWithin(ways, replies, randoms, m - 1);
      var c := Run(ways, replies, randoms, m - 1);
      if c.outcome.None? {
        HeedSleep(Begin(c, m - 1, randoms(m - 1)), m - 1, replies(m - 1));
      }
    }
  }

  lemma MostOfFive()
    ensures MostSleep(API_ATTEMPTS) == 131_250
  {
    assert Exponential(0) == 900 && Exponential(1) == 1800;
    assert Exponential(2) == 2 * Exponential(1) && Exponential(3) == 2 * Exponential(2);
    assert MostSleep(1) == 30_000;
    assert MostSleep(2) == 60_750;
    assert MostSleep(3) == 92_250;
    assert MostSleep(4) == 125_250;
  }

  /** Over every run of answers a call makes at most 5 requests and sleeps at most 131.25 seconds. */
  lemma CallIsBounded(ways: nat, replies: nat -> Reply, randoms: nat -> nat)
    requires ways > 0
    ensures var c := Run(ways, replies, randoms, API_ATTEMPTS); 1 <= |c.asked| <= 5 && c.slept <= 131_250
  {
    hide Heed, Backoff;
    AskedEach(ways, replies, randoms, API_ATTEMPTS);
    SleepWithin(ways, replies, randoms, API_ATTEMPTS);
    MostOfFive();
    AskedOnce(ways, replies, randoms, API_ATTEMPTS);
  }

  function Busy(k: nat): Reply { Answer(503, Some(API_RETRY_AFTER_CAP_SECS), true, false) }

  /** The random number that makes the wait before attempt `k` longest. */
  function Slowest(k: nat): nat {
    if k == 0 then 0 else Least(Exponential(Least(k - 1, 5)), API_BACKOFF_CAP_MS) / 3
  }

  lemma {:induction false} BusyRun(ways: nat, m: nat)
    requires ways > 0
    ensures var c := Run(ways, Busy, Slowest, m); c.outcome.None? && c.slept == MostSleep(m)
  {
    hide Heed, Backoff, Slowest, Busy, MostBackoff, RetryAfterWait;
    if m > 0 {
      BusyRun(ways, m - 1);
      var c := Run(ways, Busy, Slowest, m - 1);
      BusyStep(Begin(c, m - 1, Slowest(m - 1)), m - 1);
      if m > 1 {
        SlowestBackoff(m - 1);
      }
    }
  }

  lemma BusyStep(c: Call, attempt: nat)
    requires Sane(c) && c.outcome.None?
    ensures var d := Heed(c, attempt, Busy(attempt));
            && d.outcome.None?
            && d.slept == c.slept + if attempt + 1 < API_ATTEMPTS then 1000 * API_RETRY_AFTER_CAP_SECS else 0
  {
  }

  lemma SlowestBackoff(k: nat)
    requires k > 0
    ensures Backoff(k - 1, Slowest(k)) == MostBackoff(k - 1)
  {
    hide Exponential;
    var third := Slowest(k);
    assert third % (third + 1) == third;
  }

  /** The bound on sleep is reached: an API that is busy throughout and asks to wait as long as is heeded
      holds a call up for all of it. */
  lemma SleepBoundIsReached(ways: nat)
    requires ways > 0
    ensures Run(ways, Busy, Slowest, API_ATTEMPTS).slept == 131_250
  {
    hide Run;
    BusyRun(ways, API_ATTEMPTS);
    MostOfFive();
  }

  lemma {:induction false} AskedOnce(ways: nat, replies: nat -> Reply, randoms: nat -> nat, m: nat)
    requires ways > 0 && m >= 1
    ensures |Run(ways, replies, randoms, m).asked| >= 1
    decreases m
  {
    hide Heed, Backoff;
    if m > 1 {
      AskedOnce(ways, replies, randoms, m - 1);
    }
    var c := Run(ways, replies, randoms, m - 1);
    HeedAsked(Begin(c, m - 1, randoms(m - 1)), m - 1, replies(m - 1));
  }

  // ---- The verdict ----

  /** What a call makes of its last answer. */
  function Verdict(ways: nat, r: Reply): Outcome {
    match r
    case NoAnswer => Failed(Api)
    case NoStatus => Failed(Api)
    case Answer(status, _, _, readable) =>
      if Success(status) then (if readable then Account else Undecodable) else Failed(ErrorOf(ways, r))
  }

  lemma HeedVerdict(c: Call, attempt: nat, r: Reply)
    requires Sane(c) && c.outcome.None?
    ensures OutcomeOf(Heed(c, attempt, r)) == Verdict(|c.turnedAway|, r)
  {
    hide NextWay, RetryAfterWait, AllTurned, RefusesIdentity;
  }

  /** A call ends with what its last answer says, whatever came before. */
  lemma {:induction false} LastAnswerDecides(ways: nat, replies: nat -> Reply, randoms: nat -> nat, m: nat)
    requires ways > 0 && m > 0
    ensures var c := Run(ways, replies, randoms, m);
            |c.asked| >= 1 && OutcomeOf(c) == Verdict(ways, replies(|c.asked| - 1))
    decreases m
  {
    hide Heed, Backoff, Verdict;
    AskedEach(ways, replies, randoms, m);
    AskedOnce(ways, replies, randoms, m);
    var c := Run(ways, replies, randoms, m - 1);
    if c.outcome.None? {
      AskedEach(ways, replies, randoms, m - 1);
      var begun := Begin(c, m - 1, randoms(m - 1));
      HeedVerdict(begun, m - 1, replies(m - 1));
      HeedAsked(begun, m - 1, replies(m - 1));
    } else {
      LastAnswerDecides(ways, replies, randoms, m - 1);
    }
  }

  /** The identity is called refused exactly for a last answer of 401 or 410, or of 404 when it is in the
      API's envelope or there is one way only. */
  lemma IdentityRefusedIff(ways: nat, replies: nat -> Reply, randoms: nat -> nat)
    requires ways > 0
    ensures var c := Run(ways, replies, randoms, API_ATTEMPTS);
            |c.asked| >= 1 &&
            var r := replies(|c.asked| - 1);
            OutcomeOf(c) == Failed(IdentityRefused) <==>
            r.Answer? && (r.status == 401 || r.status == 410 || (r.status == 404 && (r.envelope || ways == 1)))
  {
    hide Run;
    LastAnswerDecides(ways, replies, randoms, API_ATTEMPTS);
  }

  // ---- In status numbers ----

  /** A status that says to come back: too many requests, a request that took too long, any server error. */
  predicate Temporary(status: nat) { status == 429 || status == 408 || 500 <= status <= 599 }

  /** With one way, an answer that ends the call. */
  predicate EndsAlone(r: Reply) { r.NoStatus? || (r.Answer? && !Temporary(r.status)) }

  /** With one way a call ends within `m` attempts exactly when one of the first `m` answers has no status of
      HTTP's or any status but 408, 429 and 500 to 599. */
  lemma {:induction false} EndsEarlyAlone(replies: nat -> Reply, randoms: nat -> nat, m: nat)
    ensures Run(1, replies, randoms, m).outcome.Some? <==> exists t: nat :: t < m && EndsAlone(replies(t))
  {
    hide Backoff, Heed, EndsAlone;
    if m > 0 {
      EndsEarlyAlone(replies, randoms, m - 1);
      var c := Run(1, replies, randoms, m - 1);
      if c.outcome.None? {
        HeedAlone(Begin(c, m - 1, randoms(m - 1)), m - 1, replies(m - 1));
      }
      assert (exists t: nat :: t < m && EndsAlone(replies(t))) <==>
             (exists t: nat :: t < m - 1 && EndsAlone(replies(t))) || EndsAlone(replies(m - 1));
    }
  }

  lemma HeedAlone(c: Call, attempt: nat, r: Reply)
    requires Sane(c) && |c.turnedAway| == 1 && c.outcome.None?
    ensures Heed(c, attempt, r).outcome.Some? <==> EndsAlone(r)
  {
    hide NextWay, RetryAfterWait;
  }

  /** With more ways, an answer of another server than the API's that is not worth asking for again. */
  predicate Foreign(r: Reply) {
    r.NoStatus? || (r.Answer? && !(200 <= r.status <= 299) && !r.envelope && !Temporary(r.status))
  }

  /** An answer of the API's that ends the call: a success, or a refusal that is not to come back. */
  predicate Settles(r: Reply) { r.Answer? && (200 <= r.status <= 299 || (r.envelope && !Temporary(r.status))) }

  ghost predicate ForeignBy(ways: nat, replies: nat -> Reply, randoms: nat -> nat, m: nat, w: nat)
    requires ways > 0
  {
    exists t: nat :: t < m && Foreign(replies(t)) && Run(ways, replies, randoms, t).way == w
  }

  /** Whether the answer to attempt `t` ends a call that has more ways: the API settles it, or another server
      answers and one has answered by every way there is. */
  ghost predicate EndsAmong(ways: nat, replies: nat -> Reply, randoms: nat -> nat, t: nat)
    requires ways > 0
  {
    || Settles(replies(t))
    || (Foreign(replies(t)) && ForeignByAll(ways, replies, randoms, t + 1))
  }

  ghost predicate ForeignByAll(ways: nat, replies: nat -> Reply, randoms: nat -> nat, m: nat)
    requires ways > 0
  {
    forall w | 0 <= w < ways :: ForeignBy(ways, replies, randoms, m, w)
  }

  lemma ForeignTurns(ways: nat, replies: nat -> Reply, randoms: nat -> nat, m: nat, w: nat)
    requires ways > 1
    ensures TurnedBy(ways, replies, randoms, m, w) <==> ForeignBy(ways, replies, randoms, m, w)
    ensures forall r :: TurnsAway(ways, r) <==> Foreign(r)
  {
    hide Run;
  }

  lemma HeedAmong(c: Call, attempt: nat, r: Reply)
    requires Sane(c) && |c.turnedAway| > 1 && c.outcome.None?
    ensures Heed(c, attempt, r).outcome.Some? <==>
            Settles(r) || (Foreign(r) && AllTurned(c.turnedAway[c.way := true]))
  {
    hide NextWay, RetryAfterWait, AllTurned;
  }

  /** With more ways a call ends within `m` attempts exactly when one of the first `m` answers is a success, a
      refusal in the API's envelope other than 408, 429 and 500 to 599, or the last of foreign answers by every
      way. */
  lemma {:induction false} EndsEarlyAmong(ways: nat, replies: nat -> Reply, randoms: nat -> nat, m: nat)
    requires ways > 1
    ensures Run(ways, replies, randoms, m).outcome.Some? <==>
            exists t: nat :: t < m && EndsAmong(ways, replies, randoms, t)
  {
    hide Backoff, Heed, EndsAmong;
    if m > 0 {
      EndsEarlyAmong(ways, replies, randoms, m - 1);
      if Run(ways, replies, randoms, m - 1).outcome.None? {
        EndsNow(ways, replies, randoms, m - 1);
      }
    }
  }

  lemma EndsNow(ways: nat, replies: nat -> Reply, randoms: nat -> nat, t: nat)
    requires ways > 1 && Run(ways, replies, randoms, t).outcome.None?
    ensures Run(ways, replies, randoms, t + 1).outcome.Some? <==> EndsAmong(ways, replies, randoms, t)
  {
    hide Backoff, Heed, Foreign, Settles, TurnedBy, ForeignBy, TurnsAway;
    var c := Run(ways, replies, randoms, t);
    var begun := Begin(c, t, randoms(t));
    HeedAmong(begun, t, replies(t));
    var marked := c.turnedAway[c.way := true];
    ForeignTurns(ways, replies, randoms, t, c.way);
    var m := t + 1;
    if Foreign(replies(t)) {
      forall w | 0 <= w < ways
        ensures marked[w] <==> ForeignBy(ways, replies, randoms, m, w)
      {
        MarkedIff(ways, replies, randoms, t, w);
        TurnedByNext(ways, replies, randoms, t, w);
        ForeignTurns(ways, replies, randoms, t + 1, w);
      }
    }
  }

  /** The wait before a call's `k`-th retry, of which it sleeps half, and up to a third more by chance: 900 ms,
      doubled each time, and 15 seconds at most. */
  function Pause(k: nat): nat {
    if k == 0 then 0 else if k == 1 then 900 else if k == 2 then 1800 else if k == 3 then 3600
    else if k == 4 then 7200 else if k == 5 then 14_400 else 15_000
  }

  /** The seconds an answer asks for, up to 30, when it says to come back and is not the last of five. */
  function Asked(r: Reply, k: nat): nat {
    if r.Answer? && Temporary(r.status) && r.retryAfter.Some? && k < 4 then
      1000 * (if r.retryAfter.value < 30 then r.retryAfter.value else 30)
    else 0
  }

  function Sleep(replies: nat -> Reply, randoms: nat -> nat, k: nat): nat {
    if k == 0 then 0
    else
      var last := k - 1;
      Sleep(replies, randoms, last) + Rest(last, randoms(last)) + Asked(replies(last), last)
  }

  function Rest(k: nat, r: nat): nat { if k == 0 then 0 else Pause(k) / 2 + r % (Pause(k) / 3 + 1) }

  lemma Pauses(k: nat, r: nat)
    requires k >= 1
    ensures Backoff(k - 1, r) == Rest(k, r)
  {
    assert Exponential(0) == 900;
    assert Exponential(1) == 1800;
    assert Exponential(2) == 3600;
    assert Exponential(3) == 7200;
    assert Exponential(4) == 14_400;
    assert Exponential(5) == 28_800;
  }

  lemma NoRest(r: nat)
    ensures Rest(0, r) == 0
  {
  }

  lemma HeedSleeps(c: Call, attempt: nat, r: Reply)
    requires Sane(c) && c.outcome.None?
    ensures Heed(c, attempt, r).slept == c.slept + Asked(r, attempt)
  {
    hide NextWay, AllTurned;
  }

  /** A call sleeps exactly the pauses between its requests and what its answers asked for. */
  lemma {:induction false} SleepsExactly(ways: nat, replies: nat -> Reply, randoms: nat -> nat, m: nat)
    requires ways > 0
    ensures var c := Run(ways, replies, randoms, m); c.slept == Sleep(replies, randoms, |c.asked|)
    decreases m
  {
    hide Backoff, Heed, Rest, Asked;
    if m > 0 {
      SleepsExactly(ways, replies, randoms, m - 1);
      AskedEach(ways, replies, randoms, m - 1);
      var c := Run(ways, replies, randoms, m - 1);
      if c.outcome.None? {
        var begun := Begin(c, m - 1, randoms(m - 1));
        HeedSleeps(begun, m - 1, replies(m - 1));
        HeedAsked(begun, m - 1, replies(m - 1));
        NoRest(randoms(0));
        if m > 1 {
          Pauses(m - 1, randoms(m - 1));
        }
      }
    }
  }

  /** A call gives an account exactly when its last answer is a success that reads as one, and is undecodable
      exactly when it is a success that does not. */
  lemma AccountIff(ways: nat, replies: nat -> Reply, randoms: nat -> nat)
    requires ways > 0
    ensures var c := Run(ways, replies, randoms, 5);
            && |c.asked| >= 1
            && var r := replies(|c.asked| - 1);
               && (OutcomeOf(c) == Account <==> r.Answer? && 200 <= r.status <= 299 && r.readable)
               && (OutcomeOf(c) == Undecodable <==> r.Answer? && 200 <= r.status <= 299 && !r.readable)
  {
    hide Run, ErrorOf;
    LastAnswerDecides(ways, replies, randoms, 5);
  }

  // ---- The way that is remembered ----

  /** An answer of the API itself, in status numbers. */
  predicate ByApi(r: Reply) { r.Answer? && (200 <= r.status <= 299 || r.envelope) }

  /** Whether request `t` is the last of the first `k` that the API itself answered. */
  predicate LastByApi(replies: nat -> Reply, t: nat, k: nat) {
    t < k && ByApi(replies(t)) && forall u: nat | t < u < k :: !ByApi(replies(u))
  }

  /** Whether the last request that the API itself answered went by way `w`. */
  ghost predicate RememberedBy(replies: nat -> Reply, asked: seq<nat>, w: nat) {
    exists t: nat :: t < |asked| && asked[t] == w && LastByApi(replies, t, |asked|)
  }

  lemma RememberedGrows(replies: nat -> Reply, asked: seq<nat>, way: nat, w: nat)
    ensures var r := replies(|asked|);
            RememberedBy(replies, asked + [way], w) <==> if ByApi(r) then way == w else RememberedBy(replies, asked, w)
  {
    hide ByApi;
    var k, all := |asked|, asked + [way];
    LastGrows(replies, k, |all|);
    if ByApi(replies(k)) {
      assert all[k] == way && LastByApi(replies, k, |all|);
    } else {
      assert forall t: nat | t < k :: all[t] == asked[t];
      if RememberedBy(replies, all, w) {
        var t: nat :| t < |all| && all[t] == w && LastByApi(replies, t, |all|);
        assert LastByApi(replies, t, k);
      }
    }
  }

  lemma HeedRemembers(c: Call, attempt: nat, r: Reply)
    requires Sane(c)
    ensures Heed(c, attempt, r).answered == if |c.turnedAway| > 1 && ByApi(r) then Some(c.way) else c.answered
  {
    hide NextWay, AllTurned, RetryAfterWait;
  }

  /** Over every run of answers, a call with more ways than one remembers the way of the last request that the API
      itself answered, and a call with one way remembers none. */
  lemma {:induction false} RemembersIff(ways: nat, replies: nat -> Reply, randoms: nat -> nat, m: nat, w: nat)
    requires ways > 0
    ensures var c := Run(ways, replies, randoms, m);
            c.answered == Some(w) <==>
            ways > 1 && RememberedBy(replies, c.asked, w)
    decreases m
  {
    hide Heed, Backoff, ByApi, LastByApi;
    if m > 0 {
      RemembersIff(ways, replies, randoms, m - 1, w);
      AskedEach(ways, replies, randoms, m - 1);
      var c := Run(ways, replies, randoms, m - 1);
      if c.outcome.None? {
        var begun := Begin(c, m - 1, randoms(m - 1));
        HeedRemembers(begun, m - 1, replies(m - 1));
        HeedAsked(begun, m - 1, replies(m - 1));
        RememberedGrows(replies, c.asked, c.way, w);
      }
    }
  }

  lemma LastGrows(replies: nat -> Reply, k: nat, next: nat)
    requires next == k + 1
    ensures ByApi(replies(k)) ==> forall t: nat :: LastByApi(replies, t, next) <==> t == k
    ensures !ByApi(replies(k)) ==> forall t: nat :: LastByApi(replies, t, next) <==> LastByApi(replies, t, k)
  {
    hide ByApi;
  }
}
