/**
 * The rate limiter's token bucket, in sixtieths of a token so that a refill of perMinute / 60 tokens a
 * second is a whole number. Times are whole seconds.
 */
module TokenBucket {
  import opened Arithmetic

  const REQUEST := 60

  datatype Bucket = Absent | Present(tokens: int, ts: int)

  function Min(a: int, b: int): int {
    if a <= b then a else b
  }

  function Max(a: int, b: int): int {
    if a >= b then a else b
  }

  function Capacity(perMinute: nat): nat {
    60 * perMinute
  }

  /** What the script has to spend when it is called at this time. */
  function Level(perMinute: nat, b: Bucket, now: int): int {
    match b
    case Absent => Capacity(perMinute)
    case Present(tokens, ts) => Min(Capacity(perMinute), tokens + Max(0, now - ts) * perMinute)
  }

  function Admits(perMinute: nat, b: Bucket, now: int): bool {
    Level(perMinute, b, now) >= REQUEST
  }

  function After(perMinute: nat, b: Bucket, now: int): Bucket {
    var level := Level(perMinute, b, now);
    Present(if level >= REQUEST then level - REQUEST else level, now)
  }

  /** The script run against one key of the store. */
  class Limiter {
    const perMinute: nat
    var bucket: Bucket

    constructor (perMinute: nat)
      ensures this.perMinute == perMinute && bucket == Absent
    {
      this.perMinute, bucket := perMinute, Absent;
    }

    method Allow(now: int) returns (allowed: bool)
      modifies this
      ensures allowed == Admits(perMinute, old(bucket), now)
      ensures bucket == After(perMinute, old(bucket), now)
    {
      var capacity := 60 * perMinute;
      var tokens, ts;
      match bucket {
        case Absent => tokens, ts := capacity, now;
        case Present(n, t) => tokens, ts := n, t;
      }
      var elapsed := Max(0, now - ts);
      tokens := Min(capacity, tokens + elapsed * perMinute);
      allowed := false;
      if tokens >= REQUEST {
        allowed := true;
        tokens := tokens - REQUEST;
      }
      bucket := Present(tokens, now);
    }

    /** The key is dropped once it has not been written for long enough. */
    method Expire()
      modifies this
      ensures bucket == Absent
    {
      bucket := Absent;
    }
  }

  // ---- Runs ----

  /** A call, and whether the key had expired when it was made. */
  datatype Call = Call(now: int, expired: bool)

  function Found(b: Bucket, expired: bool): Bucket {
    if expired then Absent else b
  }

  /** The bucket before the n-th call. */
  function Before(perMinute: nat, calls: seq<Call>, n: nat): Bucket
    requires n <= |calls|
  {
    if n == 0 then Absent
    else
      After(perMinute, Found(Before(perMinute, calls, n - 1), calls[n - 1].expired), calls[n - 1].now)
  }

  function LevelAt(perMinute: nat, calls: seq<Call>, n: nat): int
    requires n < |calls|
  {
    Level(perMinute, Found(Before(perMinute, calls, n), calls[n].expired), calls[n].now)
  }

  predicate Admitted(perMinute: nat, calls: seq<Call>, n: nat)
    requires n < |calls|
  {
    Admits(perMinute, Found(Before(perMinute, calls, n), calls[n].expired), calls[n].now)
  }

  /** The clock does not run backwards, and a key only expires after two minutes without a write. */
  predicate Timely(calls: seq<Call>) {
    && (forall i, j :: 0 <= i <= j < |calls| ==> calls[i].now <= calls[j].now)
    && (forall i :: 0 < i < |calls| && calls[i].expired ==> calls[i].now - calls[i - 1].now >= 120)
  }

  function NeverExpiring(calls: seq<Call>): seq<Call> {
    seq(|calls|, i requires 0 <= i < |calls| => Call(calls[i].now, false))
  }

  lemma {:induction false} TokensNonNegative(perMinute: nat, calls: seq<Call>, n: nat)
    requires n <= |calls| && Timely(calls)
    ensures Before(perMinute, calls, n).Present? ==>
              n > 0 && Before(perMinute, calls, n).tokens >= 0 && Before(perMinute, calls, n).ts == calls[n - 1].now
    ensures n > 0 ==> Before(perMinute, calls, n).Present?
  {
    if n > 0 {
      TokensNonNegative(perMinute, calls, n - 1);
      ElapsedNonNegative(perMinute, Found(Before(perMinute, calls, n - 1), calls[n - 1].expired), calls[n - 1].now);
    }
  }

  lemma ElapsedNonNegative(perMinute: nat, b: Bucket, now: int)
    requires b.Present? ==> b.tokens >= 0
    ensures 0 <= Level(perMinute, b, now) <= Capacity(perMinute)
  {
    if b.Present? {
      assert Max(0, now - b.ts) * perMinute >= 0;
    }
  }

  /** Two minutes refill twice the capacity, so a key that expired would have been full. */
  lemma ExpiredIsFull(perMinute: nat, b: Bucket, now: int)
    requires b.Present? && b.tokens >= 0 && now - b.ts >= 120
    ensures Level(perMinute, b, now) == Capacity(perMinute) == Level(perMinute, Absent, now)
  {
    assert (now - b.ts) * perMinute >= 120 * perMinute by { MulAtLeast(now - b.ts, 120, perMinute); }
  }

  /** The expiring bucket is, call for call, in the state of one that never expires. */
  lemma {:induction false} ExpiryIsInvisible(perMinute: nat, calls: seq<Call>, n: nat)
    requires n <= |calls| && Timely(calls)
    ensures Before(perMinute, calls, n) == Before(perMinute, NeverExpiring(calls), n)
    ensures n < |calls| ==> (Admitted(perMinute, calls, n) <==> Admitted(perMinute, NeverExpiring(calls), n))
  {
    if n > 0 {
      ExpiryIsInvisible(perMinute, calls, n - 1);
      ExpiryKeepsLevel(perMinute, calls, n - 1);
    }
    if n < |calls| {
      ExpiryKeepsLevel(perMinute, calls, n);
    }
  }

  lemma ExpiryKeepsLevel(perMinute: nat, calls: seq<Call>, n: nat)
    requires n < |calls| && Timely(calls)
    ensures LevelAt(perMinute, calls, n) == Level(perMinute, Before(perMinute, calls, n), calls[n].now)
  {
    TokensNonNegative(perMinute, calls, n);
    if calls[n].expired && n > 0 {
      ExpiredIsFull(perMinute, Before(perMinute, calls, n), calls[n].now);
    }
  }

  // ---- What a bucket admits ----

  /** How many of the calls from i up to, not including, k were admitted. */
  function CountAdmitted(perMinute: nat, calls: seq<Call>, i: nat, k: nat): nat
    requires i <= k <= |calls|
    decreases k - i
  {
    if i == k then 0
    else CountAdmitted(perMinute, calls, i, k - 1) + if Admitted(perMinute, calls, k - 1) then 1 else 0
  }

  /** What is left of the allowance of the window that starts with call i when call k is made. */
  function Slack(perMinute: nat, calls: seq<Call>, i: nat, k: nat): int
    requires i <= k < |calls|
  {
    Capacity(perMinute) + (calls[k].now - calls[i].now) * perMinute - REQUEST * CountAdmitted(perMinute, calls, i, k)
  }

  /** The level is the tightest of the allowances of all windows that end now. */
  lemma {:induction false} LevelIsLeastSlack(perMinute: nat, calls: seq<Call>, k: nat)
    requires k < |calls| && Timely(calls)
    ensures forall i :: 0 <= i <= k ==> LevelAt(perMinute, calls, k) <= Slack(perMinute, calls, i, k)
    ensures exists i :: 0 <= i <= k && LevelAt(perMinute, calls, k) == Slack(perMinute, calls, i, k)
  {
    ExpiryKeepsLevel(perMinute, calls, k);
    assert Slack(perMinute, calls, k, k) == Capacity(perMinute);
    if k > 0 {
      LevelIsLeastSlack(perMinute, calls, k - 1);
      NextLevel(perMinute, calls, k);
      hide LevelAt, Before;
      var spent := if Admitted(perMinute, calls, k - 1) then REQUEST else 0;
      var refilled := (calls[k].now - calls[k - 1].now) * perMinute;
      forall i | 0 <= i <= k
        ensures LevelAt(perMinute, calls, k) <= Slack(perMinute, calls, i, k)
      {
        if i < k {
          SlackGrows(perMinute, calls, i, k);
        }
      }
      var i :| 0 <= i <= k - 1 && LevelAt(perMinute, calls, k - 1) == Slack(perMinute, calls, i, k - 1);
      SlackGrows(perMinute, calls, i, k);
      if LevelAt(perMinute, calls, k) != Capacity(perMinute) {
        assert LevelAt(perMinute, calls, k) == Slack(perMinute, calls, i, k);
      }
    }
  }

  lemma NextLevel(perMinute: nat, calls: seq<Call>, k: nat)
    requires 0 < k < |calls| && Timely(calls)
    ensures LevelAt(perMinute, calls, k)
         == Min(Capacity(perMinute),
                LevelAt(perMinute, calls, k - 1) - (if Admitted(perMinute, calls, k - 1) then REQUEST else 0)
                + (calls[k].now - calls[k - 1].now) * perMinute)
  {
    ExpiryKeepsLevel(perMinute, calls, k);
  }

  lemma SlackGrows(perMinute: nat, calls: seq<Call>, i: nat, k: nat)
    requires i < k < |calls|
    ensures Slack(perMinute, calls, i, k)
         == Slack(perMinute, calls, i, k - 1) - (if Admitted(perMinute, calls, k - 1) then REQUEST else 0)
            + (calls[k].now - calls[k - 1].now) * perMinute
  {
    hide Admitted;
    var a, b := calls[k - 1].now - calls[i].now, calls[k].now - calls[k - 1].now;
    assert (a + b) * perMinute == a * perMinute + b * perMinute;
  }

  /**
   * The whole behaviour without a bucket: a request is admitted if and only if, for every earlier call,
   * the requests admitted since then and this one together stay within the capacity plus what was
   * refilled since then.
   */
  lemma AdmittedIffEveryWindowAllows(perMinute: nat, calls: seq<Call>, k: nat)
    requires k < |calls| && Timely(calls)
    ensures Admitted(perMinute, calls, k) <==>
            forall i :: 0 <= i <= k ==>
              60 * (CountAdmitted(perMinute, calls, i, k) + 1)
              <= 60 * perMinute + (calls[k].now - calls[i].now) * perMinute
  {
    LevelIsLeastSlack(perMinute, calls, k);
    var i :| 0 <= i <= k && LevelAt(perMinute, calls, k) == Slack(perMinute, calls, i, k);
    hide LevelAt, CountAdmitted;
    forall j | 0 <= j <= k
      ensures Slack(perMinute, calls, j, k) >= REQUEST <==>
              REQUEST * (CountAdmitted(perMinute, calls, j, k) + 1)
              <= Capacity(perMinute) + (calls[k].now - calls[j].now) * perMinute
    {
    }
  }

  /** No interval of any run admits more than the capacity plus the refill over the interval. */
  lemma {:induction false} EveryIntervalIsBounded(perMinute: nat, calls: seq<Call>, i: nat, k: nat)
    requires i <= k < |calls| && Timely(calls)
    ensures 60 * CountAdmitted(perMinute, calls, i, k + 1)
         <= 60 * perMinute + (calls[k].now - calls[i].now) * perMinute
  {
    LevelIsLeastSlack(perMinute, calls, k);
    TokensNonNegative(perMinute, calls, k);
    ElapsedNonNegative(perMinute, Found(Before(perMinute, calls, k), calls[k].expired), calls[k].now);
    assert LevelAt(perMinute, calls, k) <= Slack(perMinute, calls, i, k);
    hide LevelAt;
  }

  // ---- A clock that steps back ----

  type Jump = (int, int)

  /** The clock runs forward or takes one of the given steps back; a key expires as in a timely run. */
  ghost predicate Reads(calls: seq<Call>, back: iset<Jump>) {
    forall i :: 0 < i < |calls| ==>
      && (calls[i - 1].now <= calls[i].now || (calls[i - 1].now, calls[i].now) in back)
      && (calls[i].expired ==> calls[i].now - calls[i - 1].now >= 120)
  }

  /** Every interval of the run admits at most the capacity plus the refill over the interval. */
  ghost predicate Bounded(perMinute: nat, calls: seq<Call>) {
    forall i, k :: 0 <= i <= k < |calls| && calls[i].now <= calls[k].now ==>
      60 * CountAdmitted(perMinute, calls, i, k + 1)
      <= 60 * perMinute + (calls[k].now - calls[i].now) * perMinute
  }

  /** As many calls as the capacity admits at time t, then n times a call at u and one at t. */
  function Seesaw(perMinute: nat, t: int, u: int, n: nat): (calls: seq<Call>)
    ensures |calls| == perMinute + 2 * n
  {
    if n == 0 then seq(perMinute, i => Call(t, false))
    else Seesaw(perMinute, t, u, n - 1) + [Call(u, false), Call(t, false)]
  }

  lemma {:induction false} SeesawReads(perMinute: nat, t: int, u: int, n: nat)
    requires u < t && perMinute > 0
    ensures Reads(Seesaw(perMinute, t, u, n), iset{(t, u)})
    ensures forall i :: 0 <= i < perMinute + 2 * n ==> !Seesaw(perMinute, t, u, n)[i].expired
    ensures Seesaw(perMinute, t, u, n)[0].now == t == Seesaw(perMinute, t, u, n)[perMinute + 2 * n - 1].now
  {
    if n > 0 {
      SeesawReads(perMinute, t, u, n - 1);
    }
  }

  /** What happened before call n does not depend on what follows. */
  lemma {:induction false} BeforePrefix(perMinute: nat, calls: seq<Call>, more: seq<Call>, n: nat)
    requires n <= |calls|
    ensures Before(perMinute, calls + more, n) == Before(perMinute, calls, n)
    ensures CountAdmitted(perMinute, calls + more, 0, n) == CountAdmitted(perMinute, calls, 0, n)
  {
    if n > 0 {
      BeforePrefix(perMinute, calls, more, n - 1);
      assert (calls + more)[n - 1] == calls[n - 1];
    }
  }

  /** At one reading of the clock the bucket is drained. */
  lemma {:induction false} Drains(perMinute: nat, t: int, n: nat)
    requires n <= perMinute
    ensures var calls := Seesaw(perMinute, t, t, 0);
            && CountAdmitted(perMinute, calls, 0, n) == n
            && Before(perMinute, calls, n)
               == if n == 0 then Absent else Present(Capacity(perMinute) - REQUEST * n, t)
  {
    if n > 0 {
      Drains(perMinute, t, n - 1);
    }
  }

  /** Each turn of the seesaw refills the bucket a little, until it admits one more than its capacity. */
  lemma {:induction false} SeesawRefills(perMinute: nat, t: int, u: int, n: nat)
    requires perMinute > 0 && u < t
    ensures var calls := Seesaw(perMinute, t, u, n);
            && Before(perMinute, calls, |calls|).Present?
            && Before(perMinute, calls, |calls|).ts == t
            && CountAdmitted(perMinute, calls, 0, |calls|) >= perMinute
            && (CountAdmitted(perMinute, calls, 0, |calls|) > perMinute
                || n <= Before(perMinute, calls, |calls|).tokens < REQUEST)
  {
    var calls := Seesaw(perMinute, t, u, n);
    if n == 0 {
      Drains(perMinute, t, perMinute);
    } else {
      var front := Seesaw(perMinute, t, u, n - 1);
      SeesawRefills(perMinute, t, u, n - 1);
      var turn := [Call(u, false), Call(t, false)];
      BeforePrefix(perMinute, front, turn, |front|);
      var m := |front|;
      assert calls[m] == Call(u, false) && calls[m + 1] == Call(t, false);
      assert (t - u) * perMinute >= perMinute by { MulAtLeast(t - u, 1, perMinute); }
      assert Before(perMinute, calls, m + 1) == After(perMinute, Before(perMinute, calls, m), u);
      assert Before(perMinute, calls, m + 2) == After(perMinute, Before(perMinute, calls, m + 1), t);
    }
  }

  /**
   * One step back, however small, over-admits in an interval of no length: with the limit at any positive
   * number, more than the capacity is admitted between two readings of the same second.
   */
  lemma SteppingBackOverAdmits(perMinute: nat, t: int, u: int)
    requires perMinute > 0 && u < t
    ensures var calls := Seesaw(perMinute, t, u, REQUEST);
            && calls[0].now == t == calls[|calls| - 1].now
            && CountAdmitted(perMinute, calls, 0, |calls|) > perMinute
            && !Bounded(perMinute, calls)
  {
    var calls := Seesaw(perMinute, t, u, REQUEST);
    SeesawReads(perMinute, t, u, REQUEST);
    SeesawRefills(perMinute, t, u, REQUEST);
    hide CountAdmitted, Before, Seesaw;
    assert CountAdmitted(perMinute, calls, 0, |calls|) > perMinute;
    assert (calls[|calls| - 1].now - calls[0].now) * perMinute == 0;
  }

  lemma {:induction false} StepwiseIsTimely(calls: seq<Call>, i: nat, j: nat)
    requires Reads(calls, iset{}) && i <= j < |calls|
    ensures calls[i].now <= calls[j].now
  {
    if i < j {
      StepwiseIsTimely(calls, i, j - 1);
    }
  }

  /** A limit of zero admits nothing. */
  lemma {:induction false} ZeroAdmitsNothing(calls: seq<Call>, i: nat, k: nat)
    requires i <= k <= |calls|
    ensures CountAdmitted(0, calls, i, k) == 0
    decreases k
  {
    if i < k {
      ZeroAdmitsNothing(calls, i, k - 1);
    }
  }

  /**
   * Exactly the clocks for which the bound holds: a positive limit is kept in every interval of every run if
   * and only if the clock takes no step back at all.
   */
  lemma BoundedExactly(perMinute: nat, back: iset<Jump>)
    requires forall j :: j in back ==> j.1 < j.0
    ensures (forall calls: seq<Call> :: Reads(calls, back) ==> Bounded(perMinute, calls))
            <==> perMinute == 0 || back == iset{}
  {
    if perMinute > 0 && back != iset{} {
      var j :| j in back;
      var calls := Seesaw(perMinute, j.0, j.1, REQUEST);
      SeesawReads(perMinute, j.0, j.1, REQUEST);
      SteppingBackOverAdmits(perMinute, j.0, j.1);
      assert Reads(calls, back) && !Bounded(perMinute, calls);
    } else {
      forall calls: seq<Call>, i: nat, k: nat | Reads(calls, back) && i <= k < |calls| && calls[i].now <= calls[k].now
        ensures REQUEST * CountAdmitted(perMinute, calls, i, k + 1)
             <= Capacity(perMinute) + (calls[k].now - calls[i].now) * perMinute
      {
        if perMinute == 0 {
          ZeroAdmitsNothing(calls, i, k + 1);
        } else {
          ReadsForward(calls);
          EveryIntervalIsBounded(perMinute, calls, i, k);
        }
      }
    }
  }

  lemma ReadsForward(calls: seq<Call>)
    requires Reads(calls, iset{})
    ensures Timely(calls)
  {
    forall i: nat, j: nat | i <= j < |calls|
      ensures calls[i].now <= calls[j].now
    {
      StepwiseIsTimely(calls, i, j);
    }
  }
}
