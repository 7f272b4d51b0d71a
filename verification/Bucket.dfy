/** How many requests a connection may make: the token bucket, and the windows
    of time it stands for. */
module Bucket {
  /** Nanoseconds of the monotonic clock. */
  type Time = nat

  /** Requests a second, and requests at once. */
  const RATE := 30.0
  const BURST := 60.0

  datatype Try = Try(at: Time, admitted: bool)

  /** What `since` to `now` earns, in requests. */
  function Earned(since: Time, now: Time): real {
    if now <= since then 0.0 else (now - since) as real / 1_000_000_000.0 * RATE
  }

  predicate InOrder(tries: seq<Try>) {
    forall i, j | 0 <= i < j < |tries| :: tries[i].at <= tries[j].at
  }

  /** How many of `tries` from `from` on were admitted. */
  function Admitted(tries: seq<Try>, from: nat): nat
    decreases |tries|
  {
    if |tries| <= from then 0
    else
      var last := |tries| - 1;
      Admitted(tries[..last], from) + if tries[last].admitted then 1 else 0
  }

  /** A window of time from `since` to `now` may hold `count` requests. */
  predicate Holds(count: nat, since: Time, now: Time) {
    count as real <= BURST + Earned(since, now)
  }

  /** One more request at `now` would leave the window from try `j` up to now
      with no more than it may hold. */
  predicate FitsFrom(tries: seq<Try>, j: nat, now: Time)
    requires j < |tries|
  {
    Holds(Admitted(tries, j) + 1, tries[j].at, now)
  }

  /** And so every window from an earlier try. */
  predicate Fits(tries: seq<Try>, now: Time) {
    forall j: nat | j < |tries| :: FitsFrom(tries, j, now)
  }

  /** Try `k` was admitted exactly when it fitted. */
  predicate FairAt(tries: seq<Try>, k: nat)
    requires k < |tries|
  {
    tries[k].admitted <==> Fits(tries[..k], tries[k].at)
  }

  predicate Fair(tries: seq<Try>) {
    forall k: nat | k < |tries| :: FairAt(tries, k)
  }

  // ------------------------------------------------------------- the tightest window

  /** What the window from try `j` to `now` has left to hold. */
  function Room(tries: seq<Try>, now: Time, j: nat): real
    requires j < |tries|
  {
    BURST + Earned(tries[j].at, now) - Admitted(tries, j) as real
  }

  /** `tokens` is the room of the tightest window, as of the last try. */
  ghost predicate Tightest(tries: seq<Try>, last: Time, tokens: real) {
    && (tries == [] ==> tokens == BURST)
    && (tries != [] ==> last == tries[|tries| - 1].at && exists j: nat :: j < |tries| && tokens == Room(tries, last, j))
    && (forall j: nat | j < |tries| :: tokens <= Room(tries, last, j))
  }

  /** All that a bucket keeps of its history. */
  ghost predicate Told(tries: seq<Try>, last: Time, tokens: real) {
    InOrder(tries) && Fair(tries) && Tightest(tries, last, tokens)
  }

  function Level(tokens: real, last: Time, now: Time): real {
    var filled := tokens + Earned(last, now);
    if filled < BURST then filled else BURST
  }

  lemma EarnedAdds(a: Time, b: Time, c: Time)
    requires a <= b <= c
    ensures Earned(a, c) == Earned(a, b) + Earned(b, c)
  {
  }

  lemma RoomHolds(tries: seq<Try>, last: Time, now: Time, j: nat)
    requires j < |tries| && tries[j].at <= last <= now
    ensures FitsFrom(tries, j, now) <==> Room(tries, last, j) + Earned(last, now) >= 1.0
  {
    EarnedAdds(tries[j].at, last, now);
  }

  lemma LevelFits(tries: seq<Try>, tokens: real, last: Time, now: Time)
    requires InOrder(tries) && Tightest(tries, last, tokens) && last <= now
    ensures Level(tokens, last, now) >= 1.0 <==> Fits(tries, now)
  {
    forall j: nat | j < |tries|
      ensures FitsFrom(tries, j, now) <==> Room(tries, last, j) + Earned(last, now) >= 1.0
    {
      RoomHolds(tries, last, now, j);
    }
    if tries != [] {
      var j: nat :| j < |tries| && tokens == Room(tries, last, j);
      assert Fits(tries, now) ==> FitsFrom(tries, j, now);
    }
  }

  lemma NextTightest(tries: seq<Try>, tokens: real, last: Time, now: Time, admitted: bool)
    requires InOrder(tries) && Tightest(tries, last, tokens) && last <= now
    ensures Tightest(tries + [Try(now, admitted)], now, Level(tokens, last, now) - if admitted then 1.0 else 0.0)
  {
    var next := tries + [Try(now, admitted)];
    var spent := if admitted then 1.0 else 0.0;
    var n := |tries|;
    assert next[..n] == tries;
    assert Admitted(tries, n) == 0;
    assert Room(next, now, n) == BURST - spent;
    forall j: nat | j < n
      ensures Room(next, now, j) == Room(tries, last, j) + Earned(last, now) - spent
    {
      EarnedAdds(tries[j].at, last, now);
    }
    if Level(tokens, last, now) == BURST {
      assert n < |next| && Level(tokens, last, now) - spent == Room(next, now, n);
    } else {
      var j: nat :| j < |tries| && tokens == Room(tries, last, j);
      assert j < |next| && Level(tokens, last, now) - spent == Room(next, now, j);
    }
  }

  lemma NextFair(tries: seq<Try>, now: Time, admitted: bool)
    requires Fair(tries) && (admitted <==> Fits(tries, now))
    ensures Fair(tries + [Try(now, admitted)])
  {
    var next := tries + [Try(now, admitted)];
    forall k: nat | k < |next|
      ensures FairAt(next, k)
    {
      if k < |tries| {
        assert FairAt(tries, k) && next[..k] == tries[..k];
      } else {
        assert next[..k] == tries;
      }
    }
  }

  lemma NextInOrder(tries: seq<Try>, now: Time, admitted: bool)
    requires InOrder(tries) && (tries != [] ==> tries[|tries| - 1].at <= now)
    ensures InOrder(tries + [Try(now, admitted)])
  {
    var next := tries + [Try(now, admitted)];
    forall i, j | 0 <= i < j < |next|
      ensures next[i].at <= next[j].at
    {
      if j == |tries| && i < |tries| - 1 {
        assert tries[i].at <= tries[|tries| - 1].at;
      }
    }
  }

  lemma TakeOne(tries: seq<Try>, tokens: real, last: Time, now: Time, filled: real, admitted: bool)
    requires Told(tries, last, tokens) && last <= now
    requires filled == Level(tokens, last, now) && admitted == (filled >= 1.0)
    ensures admitted <==> Fits(tries, now)
    ensures Told(tries + [Try(now, admitted)], now, filled - if admitted then 1.0 else 0.0)
  {
    LevelFits(tries, tokens, last, now);
    NextInOrder(tries, now, admitted);
    NextFair(tries, now, admitted);
    NextTightest(tries, tokens, last, now, admitted);
  }

  class Bucket {
    var tokens: real
    var last: Time
    ghost var tries: seq<Try>

    ghost predicate Valid()
      reads this
    {
      Told(tries, last, tokens)
    }

    constructor (now: Time)
      ensures Valid() && tries == [] && last == now
    {
      tokens, last, tries := BURST, now, [];
    }

    /** Whether one more request may be made at `now`: exactly when that leaves
        every window from an earlier request up to now, this one counted, with
        no more than the burst and what its length earns. */
    method Take(now: Time) returns (admitted: bool)
      requires Valid() && last <= now
      modifies this
      ensures Valid() && last == now && tries == old(tries) + [Try(now, admitted)]
      ensures admitted <==> Fits(old(tries), now)
    {
      var earned := Earned(last, now);
      tokens := if tokens + earned < BURST then tokens + earned else BURST;
      ghost var filled := tokens;
      TakeOne(tries, old(tokens), last, now, filled, filled >= 1.0);
      last := now;
      admitted := tokens >= 1.0;
      if admitted {
        tokens := tokens - 1.0;
      }
      tries := tries + [Try(now, admitted)];
      assert tokens == filled - if admitted then 1.0 else 0.0;
    }
  }

  // ------------------------------------------------------------- what follows

  lemma {:induction false} AdmittedSplit(tries: seq<Try>, from: nat, to: nat)
    requires from <= to <= |tries|
    ensures Admitted(tries, from) == Admitted(tries[..to], from) + Admitted(tries, to)
    decreases |tries|
  {
    if to < |tries| {
      var last := |tries| - 1;
      AdmittedSplit(tries[..last], from, to);
      assert tries[..last][..to] == tries[..to];
    } else {
      assert tries[..to] == tries;
    }
  }

  /** No window of time, from any try to any later one, holds more than it may. */
  lemma {:induction false} NoWindowExceeds(tries: seq<Try>, i: nat)
    requires InOrder(tries) && Fair(tries) && i < |tries|
    ensures Holds(Admitted(tries, i), tries[i].at, tries[|tries| - 1].at)
    decreases |tries|
  {
    var last := |tries| - 1;
    if i < last {
      if tries[last].admitted {
        assert FairAt(tries, last) && FitsFrom(tries[..last], i, tries[last].at);
      } else {
        FairBefore(tries, last);
        NoWindowExceeds(tries[..last], i);
      }
    } else {
      assert Admitted(tries, i) <= 1;
    }
  }

  lemma FairBefore(tries: seq<Try>, n: nat)
    requires InOrder(tries) && Fair(tries) && n <= |tries|
    ensures InOrder(tries[..n]) && Fair(tries[..n])
  {
    forall k: nat | k < n
      ensures FairAt(tries[..n], k)
    {
      assert FairAt(tries, k) && tries[..n][..k] == tries[..k];
    }
  }

  /** The same of any stretch of the tries. */
  lemma NoStretchExceeds(tries: seq<Try>, i: nat, k: nat)
    requires InOrder(tries) && Fair(tries) && i <= k < |tries|
    ensures Holds(Admitted(tries[..k + 1], i), tries[i].at, tries[k].at)
  {
    FairBefore(tries, k + 1);
    NoWindowExceeds(tries[..k + 1], i);
  }

  lemma HoldsOneMore(count: nat, since: Time, last: Time, now: Time)
    requires since <= last <= now && Holds(count, since, last) && Earned(last, now) >= 1.0
    ensures Holds(count + 1, since, now)
  {
    EarnedAdds(since, last, now);
  }

  /** A request a thirtieth of a second or more after the one before is always
      admitted, whatever came earlier. */
  lemma PacedIsAdmitted(tries: seq<Try>, now: Time)
    requires InOrder(tries) && Fair(tries)
    requires tries != [] ==> tries[|tries| - 1].at <= now && Earned(tries[|tries| - 1].at, now) >= 1.0
    ensures Fits(tries, now)
  {
    forall j: nat | j < |tries|
      ensures FitsFrom(tries, j, now)
    {
      NoWindowExceeds(tries, j);
      HoldsOneMore(Admitted(tries, j), tries[j].at, tries[|tries| - 1].at, now);
    }
  }

  /** Sixty at once, and thirty a second: a window of `now - since` nanoseconds
      holds just so many. */
  lemma HoldsIs(count: nat, since: Time, now: Time)
    requires since <= now
    ensures Holds(count, since, now) <==> 1_000_000_000 * count <= 60_000_000_000 + 30 * (now - since)
  {
    var n := (now - since) as real;
    assert Earned(since, now) == n / 1_000_000_000.0 * 30.0;
    assert n / 1_000_000_000.0 * 1_000_000_000.0 == n;
    assert 1_000_000_000.0 * Earned(since, now) == 30.0 * n;
  }

  /** So of requests all made at one moment, the first sixty are admitted and no
      more. */
  lemma {:induction false} SixtyAtOnce(tries: seq<Try>, at: Time)
    requires Fair(tries) && forall i | 0 <= i < |tries| :: tries[i].at == at
    ensures forall i: nat | i < |tries| :: tries[i].admitted <==> i < 60
    ensures Admitted(tries, 0) == if |tries| < 60 then |tries| else 60
    decreases |tries|
  {
    if tries != [] {
      var n := |tries| - 1;
      var before := tries[..n];
      forall k: nat | k < n
        ensures FairAt(before, k)
      {
        assert FairAt(tries, k) && before[..k] == tries[..k];
      }
      SixtyAtOnce(before, at);
      assert FairAt(tries, n);
      NextAtOnce(before, at);
      forall i: nat | i < |tries|
        ensures tries[i].admitted <==> i < 60
      {
        assert i < n ==> before[i] == tries[i];
      }
    }
  }

  lemma NextAtOnce(tries: seq<Try>, at: Time)
    requires Admitted(tries, 0) == (if |tries| < 60 then |tries| else 60) && forall i | 0 <= i < |tries| :: tries[i].at == at
    ensures Fits(tries, at) <==> |tries| < 60
  {
    forall j: nat | j < |tries|
      ensures FitsFrom(tries, j, at) <==> Admitted(tries, j) < 60
      ensures Admitted(tries, j) <= Admitted(tries, 0)
    {
      HoldsIs(Admitted(tries, j) + 1, at, at);
      AdmittedSplit(tries, 0, j);
    }
    if |tries| >= 60 {
      assert !FitsFrom(tries, 0, at);
    }
  }

  /** What a thirtieth of a second is, to the nanosecond. */
  lemma Thirtieth(since: Time, now: Time)
    requires since <= now
    ensures Earned(since, now) >= 1.0 <==> now - since >= 33_333_334
  {
  }
}
