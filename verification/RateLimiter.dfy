/**
 The fixed-window rate limiter: a script run atomically in Redis, and the check that
 spends from a per-second and a per-minute bucket.  Time is in milliseconds.
 */
module RateLimiting {
  import opened Types

  /** A counter key; `expiresAt` None would be a key without a time to live. */
  datatype Entry = Entry(tokens: int, expiresAt: Option<int>)

  type Store = map<string, Entry>

  /** What a GET sees: an expired key is gone. */
  function Live(store: Store, key: string, now: int): Option<Entry> {
    if key in store && (store[key].expiresAt.Some? ==> now < store[key].expiresAt.value)
    then Some(store[key]) else None
  }

  /** Seconds left, rounded as Redis rounds them; negative without a time to live. */
  function Ttl(e: Entry, now: int): int {
    if e.expiresAt.None? then -1 else (e.expiresAt.value - now + 500) / 1000
  }

  datatype Reply = Reply(allowed: bool, remaining: int, ttl: int)

  function ScriptReply(store: Store, key: string, limit: int, window: int, now: int): Reply {
    match Live(store, key, now)
    case None => Reply(true, limit - 1, window)
    case Some(e) =>
      var ttl := if Ttl(e, now) < 0 then window else Ttl(e, now);
      if e.tokens <= 0 then Reply(false, 0, ttl) else Reply(true, e.tokens - 1, ttl)
  }

  function ScriptStore(store: Store, key: string, limit: int, window: int, now: int): Store {
    match Live(store, key, now)
    case None => store[key := Entry(limit - 1, Some(now + 1000 * window))]
    case Some(e) => if e.tokens <= 0 then store else store[key := e.(tokens := e.tokens - 1)]
  }

  // -------------------------------------------------------------- the log

  /** One execution of the script. */
  datatype Call = Call(key: string, limit: int, window: int, at: int)

  ghost predicate InTimeOrder(log: seq<Call>) {
    forall i, j :: 0 <= i < j < |log| ==> log[i].at <= log[j].at
  }

  /** Whatever else runs, the calls for this key agree on limit and window. */
  ghost predicate Configured(log: seq<Call>, key: string, limit: int, window: int) {
    forall i :: 0 <= i < |log| && log[i].key == key ==> log[i].limit == limit && log[i].window == window
  }

  function StoreAfter(log: seq<Call>): Store {
    if log == [] then map[]
    else
      var c := log[|log| - 1];
      ScriptStore(StoreAfter(log[..|log| - 1]), c.key, c.limit, c.window, c.at)
  }

  /** What the script answers to the next call. */
  function ReplyTo(log: seq<Call>, c: Call): Reply {
    ScriptReply(StoreAfter(log), c.key, c.limit, c.window, c.at)
  }

  /** In time order, and nothing later than `at`. */
  ghost predicate OrderedUpTo(log: seq<Call>, at: int) {
    InTimeOrder(log) && forall i :: 0 <= i < |log| ==> log[i].at <= at
  }

  /** Calls in time order, none earlier than `from` or later than `to`. */
  ghost predicate Between(from: int, log: seq<Call>, to: int) {
    from <= to && OrderedUpTo(log, to) && forall i :: 0 <= i < |log| ==> from <= log[i].at
  }

  class Redis {
    var store: Store
    var now: int
    ghost var log: seq<Call>  // every script call so far

    ghost predicate Valid()
      reads this
    {
      store == StoreAfter(log) && OrderedUpTo(log, now)
    }

    constructor (now: int)
      ensures Valid() && log == [] && this.now == now
    {
      store, log := map[], [];
      this.now := now;
    }

    /** The Lua script: one atomic step. */
    method TokenBucket(key: string, limit: int, window: int) returns (reply: Reply)
      modifies this`store
      ensures reply == ScriptReply(old(store), key, limit, window, now)
      ensures store == ScriptStore(old(store), key, limit, window, now)
    {
      var current := Live(store, key, now);
      if current.None? {
        store := store[key := Entry(limit - 1, Some(now + 1000 * window))];
        return Reply(true, limit - 1, window);
      }
      var tokens := current.value.tokens;
      if tokens <= 0 {
        var ttl := Ttl(current.value, now);
        if ttl < 0 {
          ttl := window;
        }
        return Reply(false, 0, ttl);
      }
      store := store[key := current.value.(tokens := tokens - 1)];
      var ttl := Ttl(store[key], now);
      if ttl < 0 {
        ttl := window;
      }
      return Reply(true, tokens - 1, ttl);
    }

    /** One run of the script, on record. */
    method Consume(key: string, limit: int, window: int) returns (reply: Reply)
      requires Valid()
      modifies this`store, this`log
      ensures Valid() && log == old(log) + [Call(key, limit, window, now)]
      ensures reply == ReplyTo(old(log), Call(key, limit, window, now))
    {
      reply := TokenBucket(key, limit, window);
      StoreAfterSnoc(log, Call(key, limit, window, now));
      OrderedSnoc(log, Call(key, limit, window, now));
      log := log + [Call(key, limit, window, now)];
    }

    /** One call of another request, at its own time. */
    method Serve(c: Call)
      requires Valid() && now <= c.at
      modifies this
      ensures Valid() && log == old(log) + [c] && now == c.at
    {
      now := c.at;
      var _ := Consume(c.key, c.limit, c.window);
    }

    /** What goes on while a request awaits its turn: the calls of others, and time. */
    method Elapse(others: seq<Call>, later: int)
      requires Valid() && Between(now, others, later)
      modifies this
      ensures Valid() && log == old(log) + others && now == later
      decreases |others|
    {
      if others != [] {
        var n := |others| - 1;
        FrontBetween(now, others, later);
        Elapse(others[..n], others[n].at);
        Serve(others[n]);
        assert old(log) + others == old(log) + others[..n] + [others[n]];
      }
      Wait(later);
    }

    method Wait(later: int)
      requires Valid() && now <= later
      modifies this`now
      ensures Valid() && now == later
    {
      now := later;
    }
  }

  lemma FrontBetween(from: int, log: seq<Call>, to: int)
    requires Between(from, log, to) && log != []
    ensures Between(from, log[..|log| - 1], log[|log| - 1].at) && log[|log| - 1].at <= to
  {
  }

  lemma OrderedSnoc(log: seq<Call>, c: Call)
    requires OrderedUpTo(log, c.at)
    ensures OrderedUpTo(log + [c], c.at)
  {
  }

  lemma StoreAfterSnoc(log: seq<Call>, c: Call)
    ensures StoreAfter(log + [c]) == ScriptStore(StoreAfter(log), c.key, c.limit, c.window, c.at)
  {
  }

  datatype Granularity = Rps | Rpm

  datatype Decision = Decision(allowed: bool, limit: int, remaining: int, resetSeconds: int, granularity: Granularity)

  datatype TierLimits = TierLimits(rps: int, rpm: int)

  function RpsKey(id: string): string { "ratelimit:rps:" + id }

  function RpmKey(id: string): string { "ratelimit:rpm:" + id }

  /** The two key families never meet, whatever the ids. */
  lemma KeysNeverCollide(id: string, other: string)
    ensures RpsKey(id) != RpmKey(other)
    ensures RpsKey(id) == RpsKey(other) ==> id == other
    ensures RpmKey(id) == RpmKey(other) ==> id == other
  {
    assert RpsKey(id)[12] == 's' && RpmKey(other)[12] == 'm';
    assert RpsKey(id)[14..] == id && RpsKey(other)[14..] == other;
    assert RpmKey(id)[14..] == id && RpmKey(other)[14..] == other;
  }

  function AsDecision(reply: Reply, limit: int, window: int): Decision {
    Decision(reply.allowed, limit, reply.remaining, reply.ttl, if window == 1 then Rps else Rpm)
  }

  /** With Redis out of reach the request is let through. */
  function FailOpen(limit: int, window: int): Decision {
    Decision(true, limit, limit, window, if window == 1 then Rps else Rpm)
  }

  function BurstCall(id: string, limits: TierLimits, at: int): Call { Call(RpsKey(id), limits.rps, 1, at) }

  function MinuteCall(id: string, limits: TierLimits, at: int): Call { Call(RpmKey(id), limits.rpm, 60, at) }

  /** A decision, and the script calls made by then. */
  datatype Outcome = Outcome(decision: Decision, log: seq<Call>)

  /** Asking one bucket for a token, with Redis within reach or not. */
  function Consumed(log: seq<Call>, c: Call, reachable: bool): Outcome {
    if reachable then Outcome(AsDecision(ReplyTo(log, c), c.limit, c.window), log + [c])
    else Outcome(FailOpen(c.limit, c.window), log)
  }

  /** What comes between the two calls of a check: the calls of others, up to a later time. */
  datatype Gap = Gap(others: seq<Call>, later: int)

  /** What `check` decides and which calls are made meanwhile; Redis may be out of reach for either of its own. */
  function Checked(
      log: seq<Call>, id: string, limits: TierLimits, now: int, gap: Gap,
      firstReachable: bool, secondReachable: bool): Outcome
  {
    var rps := Consumed(log, BurstCall(id, limits, now), firstReachable);
    if !rps.decision.allowed then rps
    else
      var rpm := Consumed(rps.log + gap.others, MinuteCall(id, limits, gap.later), secondReachable);
      if rpm.decision.allowed && rps.decision.remaining <= rpm.decision.remaining
      then Outcome(rps.decision, rpm.log) else rpm
  }

  class RateLimiter {
    const redis: Redis

    constructor (redis: Redis)
      ensures this.redis == redis
    {
      this.redis := redis;
    }

    method ConsumeOne(key: string, limit: int, window: int, reachable: bool) returns (d: Decision)
      requires redis.Valid()
      modifies redis`store, redis`log
      ensures redis.Valid()
      ensures Outcome(d, redis.log) == Consumed(old(redis.log), Call(key, limit, window, redis.now), reachable)
    {
      if !reachable {
        return FailOpen(limit, window);
      }
      var reply := redis.Consume(key, limit, window);
      d := AsDecision(reply, limit, window);
    }

    /** Both calls are awaited, so other requests and expiries come between them. */
    method Check(id: string, limits: TierLimits, gap: Gap, firstReachable: bool, secondReachable: bool)
      returns (d: Decision)
      requires redis.Valid() && Between(redis.now, gap.others, gap.later)
      modifies redis
      ensures redis.Valid()
      ensures Outcome(d, redis.log) ==
              Checked(old(redis.log), id, limits, old(redis.now), gap, firstReachable, secondReachable)
    {
      var rps := ConsumeOne(RpsKey(id), limits.rps, 1, firstReachable);
      if !rps.allowed {
        return rps;
      }
      redis.Elapse(gap.others, gap.later);
      var rpm := ConsumeOne(RpmKey(id), limits.rpm, 60, secondReachable);
      if !rpm.allowed {
        return rpm;
      }
      if rps.remaining <= rpm.remaining {
        return rps;
      }
      return rpm;
    }
  }

  // -------------------------------------------------------------- one check

  /** Tokens a bucket has to give: full when its key is absent or expired. */
  function Tokens(store: Store, key: string, limit: int, now: int): int {
    match Live(store, key, now)
    case None => limit
    case Some(e) => e.tokens
  }

  /** The script allows a request exactly when there is a token or no live bucket, and then spends one. */
  lemma ScriptSpendsOne(store: Store, key: string, limit: int, window: int, now: int)
    requires window > 0
    ensures
      var reply, after := ScriptReply(store, key, limit, window, now), ScriptStore(store, key, limit, window, now);
      && (reply.allowed <==> Live(store, key, now).None? || Tokens(store, key, limit, now) > 0)
      && Tokens(after, key, limit, now) == Tokens(store, key, limit, now) - (if reply.allowed then 1 else 0)
      && (forall other :: other != key ==> Live(after, other, now) == Live(store, other, now))
  {
  }

  /** Remaining is negative exactly for the request that opens a bucket whose limit is below one. */
  lemma RemainingNeverNegative(store: Store, key: string, limit: int, window: int, now: int)
    ensures ScriptReply(store, key, limit, window, now).remaining >= 0 <==>
      Live(store, key, now).Some? || limit >= 1
  {
  }

  /** One call: allowed exactly when its bucket has a token, which it then spends; no other key is touched. */
  lemma CallSpendsOne(log: seq<Call>, c: Call)
    requires c.window > 0 && c.limit >= 1
    ensures ReplyTo(log, c).allowed <==> Tokens(StoreAfter(log), c.key, c.limit, c.at) > 0
    ensures Tokens(StoreAfter(log + [c]), c.key, c.limit, c.at)
         == Tokens(StoreAfter(log), c.key, c.limit, c.at) - (if ReplyTo(log, c).allowed then 1 else 0)
    ensures forall key :: key != c.key ==> Live(StoreAfter(log + [c]), key, c.at) == Live(StoreAfter(log), key, c.at)
  {
  }

  /**
   Whatever comes between its calls, a check admits exactly when each bucket has a token at
   the check's own call to it; an admitted request spent one of each; a burst refusal makes
   no minute call and leaves the minute bucket as it was.
   */
  lemma {:induction false} CheckSpends(log: seq<Call>, id: string, limits: TierLimits, now: int, gap: Gap)
    requires limits.rps >= 1 && limits.rpm >= 1
    ensures
      var o := Checked(log, id, limits, now, gap, true, true);
      var burst, minute := BurstCall(id, limits, now), MinuteCall(id, limits, gap.later);
      var asked := log + [burst] + gap.others;
      var t0, t1 := Tokens(StoreAfter(log), RpsKey(id), limits.rps, now),
                    Tokens(StoreAfter(asked), RpmKey(id), limits.rpm, gap.later);
      && (o.decision.allowed <==> t0 > 0 && t1 > 0)
      && (o.decision.allowed ==>
            && o.log == asked + [minute]
            && Tokens(StoreAfter(log + [burst]), RpsKey(id), limits.rps, now) == t0 - 1
            && Tokens(StoreAfter(o.log), RpmKey(id), limits.rpm, gap.later) == t1 - 1)
      && (t0 <= 0 ==>
            && o.log == log + [burst]
            && Live(StoreAfter(o.log), RpmKey(id), now) == Live(StoreAfter(log), RpmKey(id), now))
  {
    KeysNeverCollide(id, id);
    CallSpendsOne(log, BurstCall(id, limits, now));
    CallSpendsOne(log + [BurstCall(id, limits, now)] + gap.others, MinuteCall(id, limits, gap.later));
  }

  /** Every bucket the script keeps expires. */
  lemma {:induction false} BucketsExpire(log: seq<Call>)
    ensures forall key :: key in StoreAfter(log) ==> StoreAfter(log)[key].expiresAt.Some?
  {
    if log != [] {
      BucketsExpire(log[..|log| - 1]);
    }
  }

  /** The reply tells, to within half a second, when the bucket will be full again. */
  lemma {:induction false} ReplyTellsReset(log: seq<Call>, c: Call)
    requires c.window > 0
    ensures c.key in StoreAfter(log + [c]) && StoreAfter(log + [c])[c.key].expiresAt.Some?
    ensures
      var after, ttl := StoreAfter(log + [c]), ReplyTo(log, c).ttl;
      var expires := after[c.key].expiresAt.value;
      && c.at < expires && -500 <= 1000 * ttl - (expires - c.at) <= 500
      && Tokens(after, c.key, c.limit, expires) == c.limit
      && (ReplyTo(log, c).allowed ==> ReplyTo(log, c).remaining == Tokens(after, c.key, c.limit, c.at))
      && (!ReplyTo(log, c).allowed ==> ReplyTo(log, c).remaining == 0 && after == StoreAfter(log))
  {
    BucketsExpire(log);
    StoreAfterSnoc(log, c);
  }

  // ------------------------------------------------------- out of reach

  /** With neither call within reach the request goes through, and only the calls of others are made. */
  lemma UnreachableIsAllowed(log: seq<Call>, id: string, limits: TierLimits, now: int, gap: Gap)
    ensures
      var o := Checked(log, id, limits, now, gap, false, false);
      && o.decision.allowed
      && o.log == log + gap.others
      && o.decision.remaining == (if limits.rps <= limits.rpm then limits.rps else limits.rpm)
      && o.decision.limit == o.decision.remaining
      && (o.decision.granularity == Rps <==> limits.rps <= limits.rpm)
      && o.decision.resetSeconds == (if limits.rps <= limits.rpm then 1 else 60)
  {
  }

  /** What is left in a bucket after a call for it that was allowed. */
  function LeftAfter(log: seq<Call>, c: Call): int {
    Tokens(StoreAfter(log + [c]), c.key, c.limit, c.at)
  }

  /**
   With only the burst bucket within reach, the request goes through exactly when that has
   a token, which it spends; what remains is the smaller of what is left and the full
   limit of the other.
   */
  lemma {:induction false} BurstAloneDecides(log: seq<Call>, id: string, limits: TierLimits, now: int, gap: Gap)
    requires limits.rps >= 1
    ensures
      var o, burst := Checked(log, id, limits, now, gap, true, false), BurstCall(id, limits, now);
      var tokens := Tokens(StoreAfter(log), RpsKey(id), limits.rps, now);
      && (o.decision.allowed <==> tokens > 0)
      && (o.decision.allowed ==>
            && o.log == log + [burst] + gap.others && LeftAfter(log, burst) == tokens - 1
            && (o.decision.granularity == Rps <==> tokens - 1 <= limits.rpm)
            && o.decision.remaining == (if tokens - 1 <= limits.rpm then tokens - 1 else limits.rpm)
            && o.decision.limit == (if tokens - 1 <= limits.rpm then limits.rps else limits.rpm)
            && (tokens - 1 > limits.rpm ==> o.decision.resetSeconds == 60))
      && (!o.decision.allowed ==>
            o.log == log + [burst] && o.decision.granularity == Rps && o.decision.remaining == 0)
  {
    CallSpendsOne(log, BurstCall(id, limits, now));
  }

  /** With only the minute bucket within reach, that one decides, and it alone is spent. */
  lemma {:induction false} MinuteAloneDecides(log: seq<Call>, id: string, limits: TierLimits, now: int, gap: Gap)
    requires limits.rpm >= 1
    ensures
      var o, minute := Checked(log, id, limits, now, gap, false, true), MinuteCall(id, limits, gap.later);
      var tokens := Tokens(StoreAfter(log + gap.others), RpmKey(id), limits.rpm, gap.later);
      && (o.decision.allowed <==> tokens > 0)
      && o.log == log + gap.others + [minute]
      && (o.decision.allowed ==>
            && LeftAfter(log + gap.others, minute) == tokens - 1
            && (o.decision.granularity == Rps <==> limits.rps <= tokens - 1)
            && o.decision.remaining == (if limits.rps <= tokens - 1 then limits.rps else tokens - 1)
            && o.decision.limit == (if limits.rps <= tokens - 1 then limits.rps else limits.rpm)
            && (limits.rps <= tokens - 1 ==> o.decision.resetSeconds == 1))
      && (!o.decision.allowed ==> o.decision.granularity == Rpm && o.decision.remaining == 0)
  {
    CallSpendsOne(log + gap.others, MinuteCall(id, limits, gap.later));
  }

  // -------------------------------------------------------------- whole runs

  /** The last call of the log was allowed. */
  predicate LastAllowed(log: seq<Call>)
    requires log != []
  {
    var c := log[|log| - 1];
    ScriptReply(StoreAfter(log[..|log| - 1]), c.key, c.limit, c.window, c.at).allowed
  }

  /** Allowed calls for a key in the time span [from, to). */
  function Allowed(log: seq<Call>, key: string, from: int, to: int): nat {
    if log == [] then 0
    else
      var c := log[|log| - 1];
      Allowed(log[..|log| - 1], key, from, to)
      + if c.key == key && from <= c.at < to && LastAllowed(log) then 1 else 0
  }

  /** A bucket was opened by an allowed call no later than the last one, and never goes below zero. */
  lemma {:induction false} BucketShape(log: seq<Call>, key: string, limit: int, window: int)
    requires InTimeOrder(log) && Configured(log, key, limit, window) && limit >= 1 && window >= 1
    ensures key in StoreAfter(log) ==>
      && log != []
      && StoreAfter(log)[key].expiresAt.Some?
      && 0 <= StoreAfter(log)[key].tokens < limit
      && StoreAfter(log)[key].expiresAt.value - 1000 * window <= log[|log| - 1].at
  {
    if log != [] {
      var front := log[..|log| - 1];
      BucketShape(front, key, limit, window);
      assert front != [] ==> front[|front| - 1].at <= log[|log| - 1].at;
    }
  }

  /** One life of a bucket, from its opening to its expiry, admits at most `limit` requests. */
  lemma {:induction false} LifeAdmitsAtMostLimit(log: seq<Call>, key: string, limit: int, window: int)
    requires InTimeOrder(log) && Configured(log, key, limit, window) && limit >= 1 && window >= 1
    requires key in StoreAfter(log)
    ensures
      var e := StoreAfter(log)[key];
      && e.expiresAt.Some?
      && Allowed(log, key, e.expiresAt.value - 1000 * window, e.expiresAt.value) == limit - e.tokens
      && limit - e.tokens <= limit
  {
    BucketShape(log, key, limit, window);
    var front, c := log[..|log| - 1], log[|log| - 1];
    var before, after := StoreAfter(front), StoreAfter(log);
    BucketShape(front, key, limit, window);
    if key in before && after[key].expiresAt == before[key].expiresAt {
      LifeAdmitsAtMostLimit(front, key, limit, window);
    } else {
      NoneSoLate(front, key, c.at, after[key].expiresAt.value, limit, window);
    }
  }

  lemma CallLeavesLive(log: seq<Call>, limit: int, window: int)
    requires log != [] && log[|log| - 1].window >= 1
    ensures Live(StoreAfter(log), log[|log| - 1].key, log[|log| - 1].at).Some?
  {
  }

  /** Before a bucket opens, nothing of its span has happened for its key. */
  lemma {:induction false} NoneSoLate(front: seq<Call>, key: string, from: int, to: int, limit: int, window: int)
    requires InTimeOrder(front) && Configured(front, key, limit, window) && limit >= 1 && window >= 1
    requires forall i :: 0 <= i < |front| ==> front[i].at <= from
    requires Live(StoreAfter(front), key, from).None?
    ensures Allowed(front, key, from, to) == 0
  {
    if front != [] {
      var n := |front| - 1;
      if front[n].key == key {
        CallLeavesLive(front, limit, window);
      }
      assert Live(StoreAfter(front[..n]), key, from).None?;
      NoneSoLate(front[..n], key, from, to, limit, window);
    }
  }

  lemma {:induction false} NoneBefore(log: seq<Call>, key: string, from: int, to: int)
    requires forall i :: 0 <= i < |log| ==> log[i].at < from
    ensures Allowed(log, key, from, to) == 0
  {
    if log != [] {
      NoneBefore(log[..|log| - 1], key, from, to);
    }
  }

  /**
   Inside a span of one window: a bucket opened before it has already spent the token
   of its opening, and at most one more bucket can open.
   */
  ghost predicate SpanBudget(log: seq<Call>, key: string, limit: int, window: int, from: int) {
    var n := Allowed(log, key, from, from + 1000 * window);
    if key !in StoreAfter(log) then n == 0
    else
      var e := StoreAfter(log)[key];
      && e.expiresAt.Some?
      && n <= (if e.expiresAt.value - 1000 * window < from then 0 else limit) + limit - 1 - e.tokens
  }

  lemma {:induction false} SpanBudgetKept(log: seq<Call>, key: string, limit: int, window: int, from: int)
    requires InTimeOrder(log) && Configured(log, key, limit, window) && limit >= 1 && window >= 1
    requires forall i :: 0 <= i < |log| ==> log[i].at < from + 1000 * window
    ensures SpanBudget(log, key, limit, window, from)
  {
    if log != [] {
      var front, c := log[..|log| - 1], log[|log| - 1];
      SpanBudgetKept(front, key, limit, window, from);
      BucketShape(front, key, limit, window);
      if c.key == key && c.at < from {
        NoneBefore(front, key, from, from + 1000 * window);
      }
    }
  }

  /** Any span of one window admits fewer than twice the limit. */
  lemma {:induction false} SpanAdmitsUnderTwiceLimit(log: seq<Call>, key: string, limit: int, window: int, from: int)
    requires InTimeOrder(log) && Configured(log, key, limit, window) && limit >= 1 && window >= 1
    ensures Allowed(log, key, from, from + 1000 * window) <= 2 * limit - 1
  {
    if log != [] && log[|log| - 1].at >= from + 1000 * window {
      SpanAdmitsUnderTwiceLimit(log[..|log| - 1], key, limit, window, from);
    } else {
      SpanBudgetKept(log, key, limit, window, from);
      BucketShape(log, key, limit, window);
    }
  }

  // ------------------------------------------------------ the bound is met

  /** The log followed by n times the same call. */
  function Repeated(log: seq<Call>, c: Call, n: nat): seq<Call> {
    if n == 0 then log else Repeated(log, c, n - 1) + [c]
  }

  lemma OneMore(log: seq<Call>, c: Call, from: int, to: int)
    ensures StoreAfter(log + [c]) == ScriptStore(StoreAfter(log), c.key, c.limit, c.window, c.at)
    ensures Allowed(log + [c], c.key, from, to) == Allowed(log, c.key, from, to)
      + if from <= c.at < to && ScriptReply(StoreAfter(log), c.key, c.limit, c.window, c.at).allowed then 1 else 0
  {
  }

  lemma OneSpent(log: seq<Call>, c: Call, from: int, to: int, e: Entry)
    requires from <= c.at < to && Live(StoreAfter(log), c.key, c.at) == Some(e) && e.tokens > 0
    ensures Live(StoreAfter(log + [c]), c.key, c.at) == Some(Entry(e.tokens - 1, e.expiresAt))
    ensures Allowed(log + [c], c.key, from, to) == Allowed(log, c.key, from, to) + 1
  {
  }

  /** After n repetitions: n tokens spent, n more calls allowed. */
  ghost predicate SpentBy(log: seq<Call>, c: Call, n: nat, from: int, to: int, e: Entry) {
    var after := Repeated(log, c, n);
    && Live(StoreAfter(after), c.key, c.at) == Some(Entry(e.tokens - n, e.expiresAt))
    && Allowed(after, c.key, from, to) == Allowed(log, c.key, from, to) + n
  }

  lemma RepeatOnce(log: seq<Call>, c: Call, n: nat, from: int, to: int, e: Entry)
    requires from <= c.at < to && n < e.tokens && SpentBy(log, c, n, from, to, e)
    ensures SpentBy(log, c, n + 1, from, to, e)
  {
    OneSpent(Repeated(log, c, n), c, from, to, Entry(e.tokens - n, e.expiresAt));
    assert Repeated(log, c, n + 1) == Repeated(log, c, n) + [c];
  }

  ghost function SpentFlags(log: seq<Call>, c: Call, n: nat, from: int, to: int, e: Entry): (flags: seq<bool>)
    ensures |flags| == n + 1 && forall i :: 0 <= i <= n ==> flags[i] == SpentBy(log, c, i, from, to, e)
  {
    seq(n + 1, i requires 0 <= i <= n => SpentBy(log, c, i, from, to, e))
  }

  /** Repeating a call while its bucket lives and has tokens admits every one. */
  lemma {:induction false} RepeatsAdmitted(log: seq<Call>, c: Call, n: nat, from: int, to: int, e: Entry)
    requires from <= c.at < to && Live(StoreAfter(log), c.key, c.at) == Some(e) && n <= e.tokens
    ensures SpentBy(log, c, n, from, to, e)
  {
    var flags := SpentFlags(log, c, n, from, to, e);
    forall i | 0 <= i < n && flags[i] ensures flags[i + 1] {
      RepeatOnce(log, c, i, from, to, e);
    }
    EachCarriesNext(flags, n);
  }

  /** The log followed by a whole bucket's worth: a call that opens it, then the same at another time. */
  function Burst(log: seq<Call>, opening: Call, c: Call): seq<Call>
    requires c.limit >= 1
  {
    Repeated(log + [opening], c, c.limit - 1)
  }

  lemma {:induction false} BurstAdmitted(log: seq<Call>, opening: Call, c: Call, from: int, to: int)
    requires c == opening.(at := c.at) && c.limit >= 1 && c.window >= 1
    requires opening.at <= c.at < opening.at + 1000 * c.window && from <= c.at < to
    requires Live(StoreAfter(log), c.key, opening.at).None?
    ensures Live(StoreAfter(Burst(log, opening, c)), c.key, c.at) == Some(Entry(0, Some(opening.at + 1000 * c.window)))
    ensures Allowed(Burst(log, opening, c), c.key, from, to) == Allowed(log, c.key, from, to)
      + c.limit - 1 + if from <= opening.at < to then 1 else 0
  {
    OneMore(log, opening, from, to);
    RepeatsAdmitted(log + [opening], c, c.limit - 1, from, to,
                    Entry(c.limit - 1, Some(opening.at + 1000 * c.window)));
  }

  /** A bucket opened at 0 and used up just before it expires, and a full bucket right after. */
  function BusyLog(key: string, limit: nat, window: nat): seq<Call>
    requires limit >= 1
  {
    var late, next := Call(key, limit, window, 1000 * window - 1), Call(key, limit, window, 1000 * window);
    Burst(Burst([], late.(at := 0), late), next, next)
  }

  /** The bound is met: a span can admit one less than twice the limit. */
  lemma {:induction false} SpanBoundIsMet(key: string, limit: nat, window: nat)
    requires limit >= 1 && window >= 1
    ensures Allowed(BusyLog(key, limit, window), key, 1, 1 + 1000 * window) == 2 * limit - 1
  {
    var late, next := Call(key, limit, window, 1000 * window - 1), Call(key, limit, window, 1000 * window);
    BurstAdmitted([], late.(at := 0), late, 1, 1 + 1000 * window);
    BurstAdmitted(Burst([], late.(at := 0), late), next, next, 1, 1 + 1000 * window);
  }

  // ------------------------------------------- any interleaving of checks

  /** One awaited call of one request's check. */
  datatype Step = Step(request: int, id: string, bucket: Granularity, at: int)

  function CallOf(s: Step, tiers: string -> TierLimits): Call {
    if s.bucket.Rps? then BurstCall(s.id, tiers(s.id), s.at) else MinuteCall(s.id, tiers(s.id), s.at)
  }

  function Calls(steps: seq<Step>, tiers: string -> TierLimits): (log: seq<Call>)
    ensures |log| == |steps|
    ensures forall i :: 0 <= i < |steps| ==> log[i] == CallOf(steps[i], tiers)
  {
    if steps == [] then [] else Calls(steps[..|steps| - 1], tiers) + [CallOf(steps[|steps| - 1], tiers)]
  }

  /** Which calls of a log the script allowed. */
  function Verdicts(log: seq<Call>): (r: seq<bool>)
    ensures |r| == |log|
  {
    if log == [] then []
    else Verdicts(log[..|log| - 1]) + [ReplyTo(log[..|log| - 1], log[|log| - 1]).allowed]
  }

  lemma {:induction false} VerdictIsReply(log: seq<Call>, i: nat)
    requires i < |log|
    ensures Verdicts(log)[i] == ReplyTo(log[..i], log[i]).allowed
  {
    var front := log[..|log| - 1];
    if i < |front| {
      VerdictIsReply(front, i);
      assert front[..i] == log[..i];
    }
  }

  /** Every minute step follows a step of its own request. */
  ghost predicate Started(steps: seq<Step>) {
    forall j :: 0 <= j < |steps| && steps[j].bucket == Rpm ==>
      exists i :: 0 <= i < j && steps[i].request == steps[j].request
  }

  ghost predicate InOrder(steps: seq<Step>) {
    forall i, j :: 0 <= i < j < |steps| ==> steps[i].at <= steps[j].at
  }

  /** Two steps of one request are its burst call, allowed, and its minute call. */
  ghost predicate Paired(steps: seq<Step>, allowed: seq<bool>)
    requires |allowed| == |steps|
  {
    forall i, j :: 0 <= i < j < |steps| && steps[i].request == steps[j].request ==>
      steps[i].bucket == Rps && steps[j].bucket == Rpm && steps[i].id == steps[j].id && allowed[i]
  }

  /**
   Any interleaving of checks: steps in time order, each request one burst call and, only
   if that was allowed and only after it, one minute call; some may still be on their way.
   */
  ghost predicate Interleaving(steps: seq<Step>, allowed: seq<bool>)
    requires |allowed| == |steps|
  {
    InOrder(steps) && Paired(steps, allowed) && Started(steps)
  }

  /** Step j is the minute call that got the request of step i through. */
  ghost predicate GetsThrough(steps: seq<Step>, allowed: seq<bool>, i: nat, j: nat)
    requires |allowed| == |steps|
  {
    i < j < |steps| && steps[i].request == steps[j].request && allowed[j]
  }

  /** Step i is the burst call of a request that was admitted. */
  ghost predicate Admits(steps: seq<Step>, allowed: seq<bool>, i: nat)
    requires |allowed| == |steps|
  {
    exists j :: GetsThrough(steps, allowed, i, j)
  }

  lemma PairedFits(steps: seq<Step>, allowed: seq<bool>, i: nat, s: Step, verdict: bool)
    requires |allowed| == |steps| && Paired(steps, allowed) && i < |steps|
    requires s == steps[i].(bucket := Rpm, at := s.at) && steps[i].bucket == Rps && allowed[i]
    requires forall j :: 0 <= j < |steps| && steps[j].request == s.request ==> j == i
    ensures Paired(steps + [s], allowed + [verdict])
  {
  }

  lemma StartedFits(steps: seq<Step>, i: nat, s: Step)
    requires Started(steps) && i < |steps| && steps[i].request == s.request
    ensures Started(steps + [s])
  {
    var more := steps + [s];
    forall j | 0 <= j < |more| && more[j].bucket == Rpm
      ensures exists k :: 0 <= k < j && more[k].request == more[j].request
    {
      if j == |steps| {
        assert more[i].request == s.request;
      } else {
        var k :| 0 <= k < j && steps[k].request == steps[j].request;
        assert more[k].request == more[j].request;
      }
    }
  }

  /** The minute call of a request on its way may come at any time, with any verdict. */
  lemma MinuteStepFits(steps: seq<Step>, allowed: seq<bool>, i: nat, s: Step, verdict: bool)
    requires |allowed| == |steps| && Interleaving(steps, allowed) && i < |steps|
    requires s == steps[i].(bucket := Rpm, at := s.at) && steps[i].bucket == Rps && allowed[i]
    requires forall j :: 0 <= j < |steps| ==> steps[j].at <= s.at && (steps[j].request == s.request ==> j == i)
    ensures Interleaving(steps + [s], allowed + [verdict])
  {
    StartedFits(steps, i, s);
    PairedFits(steps, allowed, i, s, verdict);
  }

  lemma {:induction false} VerdictsOfPrefix(log: seq<Call>, n: nat)
    requires n <= |log|
    ensures Verdicts(log[..n]) == Verdicts(log)[..n]
  {
    forall i | 0 <= i < n ensures Verdicts(log[..n])[i] == Verdicts(log)[i] {
      VerdictIsReply(log, i);
      VerdictIsReply(log[..n], i);
      assert log[..n][..i] == log[..i];
    }
  }

  lemma CallsOfConcat(a: seq<Step>, b: seq<Step>, tiers: string -> TierLimits)
    ensures Calls(a + b, tiers) == Calls(a, tiers) + Calls(b, tiers)
  {
  }

  /**
   A check is two steps of an interleaving: whatever steps of other requests come before it
   and between its calls, its burst call and, if allowed, its minute call extend them to an
   interleaving, and it admits exactly when the script allows both.
   */
  lemma {:induction false} CheckIsTwoSteps(
      before: seq<Step>, between: seq<Step>, tiers: string -> TierLimits, s: Step, later: int)
    requires s.bucket == Rps && s.at <= later
    requires
      var steps := before + [s] + between;
      && Interleaving(steps, Verdicts(Calls(steps, tiers)))
      && forall i :: 0 <= i < |steps| ==> steps[i].at <= later && (steps[i].request == s.request ==> i == |before|)
    ensures
      var steps := before + [s] + between;
      var through := steps + [s.(bucket := Rpm, at := later)];
      var o := Checked(Calls(before, tiers), s.id, tiers(s.id), s.at, Gap(Calls(between, tiers), later), true, true);
      if Verdicts(Calls(steps, tiers))[|before|] then
        && o.log == Calls(through, tiers)
        && Interleaving(through, Verdicts(o.log))
        && o.decision.allowed == Verdicts(o.log)[|steps|]
      else o.log == Calls(before + [s], tiers) && !o.decision.allowed
  {
    var steps, minute := before + [s] + between, s.(bucket := Rpm, at := later);
    var log := Calls(steps, tiers);
    CallsOfThree(before, s, between, tiers);
    VerdictIsReply(log, |before|);
    CheckedCalls(Calls(before, tiers), s.id, tiers(s.id), s.at, Gap(Calls(between, tiers), later));
    if Verdicts(log)[|before|] {
      MinuteStepExtends(steps, |before|, minute, tiers);
    }
  }

  lemma {:induction false} MinuteStepExtends(steps: seq<Step>, i: nat, s: Step, tiers: string -> TierLimits)
    requires Interleaving(steps, Verdicts(Calls(steps, tiers))) && i < |steps|
    requires s == steps[i].(bucket := Rpm, at := s.at) && steps[i].bucket == Rps && Verdicts(Calls(steps, tiers))[i]
    requires forall j :: 0 <= j < |steps| ==> steps[j].at <= s.at && (steps[j].request == s.request ==> j == i)
    ensures Calls(steps + [s], tiers) == Calls(steps, tiers) + [CallOf(s, tiers)]
    ensures Interleaving(steps + [s], Verdicts(Calls(steps + [s], tiers)))
    ensures Verdicts(Calls(steps + [s], tiers))[|steps|] == ReplyTo(Calls(steps, tiers), CallOf(s, tiers)).allowed
  {
    CallsOfConcat(steps, [s], tiers);
    MinuteCallFits(steps, Calls(steps, tiers), i, s, CallOf(s, tiers));
  }

  lemma CallsOfThree(before: seq<Step>, s: Step, between: seq<Step>, tiers: string -> TierLimits)
    ensures Calls(before + [s], tiers) == Calls(before, tiers) + [CallOf(s, tiers)]
    ensures Calls(before + [s] + between, tiers) == Calls(before, tiers) + [CallOf(s, tiers)] + Calls(between, tiers)
    ensures Calls(before + [s] + between, tiers)[..|before|] == Calls(before, tiers)
  {
  }

  lemma CheckedCalls(log: seq<Call>, id: string, limits: TierLimits, now: int, gap: Gap)
    ensures
      var o := Checked(log, id, limits, now, gap, true, true);
      var burst, minute := BurstCall(id, limits, now), MinuteCall(id, limits, gap.later);
      if ReplyTo(log, burst).allowed then
        && o.log == log + [burst] + gap.others + [minute]
        && o.decision.allowed == ReplyTo(log + [burst] + gap.others, minute).allowed
      else o.log == log + [burst] && !o.decision.allowed
  {
  }

  lemma {:induction false} MinuteCallFits(steps: seq<Step>, log: seq<Call>, i: nat, s: Step, c: Call)
    requires |log| == |steps| && Interleaving(steps, Verdicts(log)) && i < |steps|
    requires s == steps[i].(bucket := Rpm, at := s.at) && steps[i].bucket == Rps && Verdicts(log)[i]
    requires forall j :: 0 <= j < |steps| ==> steps[j].at <= s.at && (steps[j].request == s.request ==> j == i)
    ensures Interleaving(steps + [s], Verdicts(log + [c]))
    ensures Verdicts(log + [c])[|log|] == ReplyTo(log, c).allowed
  {
    var all := log + [c];
    assert all[..|log|] == log;
    VerdictsOfPrefix(all, |log|);
    VerdictIsReply(all, |log|);
    assert Verdicts(all) == Verdicts(log) + [Verdicts(all)[|log|]];
    MinuteStepFits(steps, Verdicts(log), i, s, Verdicts(all)[|log|]);
  }

  ghost predicate StepIn(s: Step, id: string, from: int, to: int) { s.id == id && from <= s.at < to }

  /** Admitted requests of an id whose burst call falls in [from, to), among the first n steps. */
  ghost function StartedIn(steps: seq<Step>, allowed: seq<bool>, id: string, from: int, to: int, n: nat): nat
    requires n <= |steps| == |allowed|
  {
    if n == 0 then 0
    else
      StartedIn(steps, allowed, id, from, to, n - 1)
      + if StepIn(steps[n - 1], id, from, to) && Admits(steps, allowed, n - 1) then 1 else 0
  }

  /** Admitted requests of an id whose minute call falls in [from, to), among the first n steps. */
  ghost function FinishedIn(steps: seq<Step>, allowed: seq<bool>, id: string, from: int, to: int, n: nat): nat
    requires n <= |steps| == |allowed|
  {
    if n == 0 then 0
    else
      FinishedIn(steps, allowed, id, from, to, n - 1)
      + if StepIn(steps[n - 1], id, from, to) && steps[n - 1].bucket == Rpm && allowed[n - 1] then 1 else 0
  }

  /** What call i of a log does to the tokens. */
  lemma {:induction false} CallAt(log: seq<Call>, i: nat)
    requires i < |log| && log[i].window > 0 && log[i].limit >= 1
    ensures Tokens(StoreAfter(log[..i + 1]), log[i].key, log[i].limit, log[i].at)
         == Tokens(StoreAfter(log[..i]), log[i].key, log[i].limit, log[i].at) - (if Verdicts(log)[i] then 1 else 0)
    ensures forall key :: key != log[i].key ==>
      Live(StoreAfter(log[..i + 1]), key, log[i].at) == Live(StoreAfter(log[..i]), key, log[i].at)
  {
    VerdictIsReply(log, i);
    CallSpendsOne(log[..i], log[i]);
    assert log[..i + 1] == log[..i] + [log[i]];
  }

  /** Step i spends a token of its own bucket. */
  ghost predicate Spends(log: seq<Call>, i: nat, c: Call) {
    && i < |log| && log[i] == c
    && Tokens(StoreAfter(log[..i + 1]), c.key, c.limit, c.at) == Tokens(StoreAfter(log[..i]), c.key, c.limit, c.at) - 1
  }

  lemma {:induction false} AllowedSpends(log: seq<Call>, i: nat, c: Call)
    requires i < |log| && log[i] == c && c.window > 0 && c.limit >= 1 && Verdicts(log)[i]
    ensures Spends(log, i, c)
  {
    CallAt(log, i);
  }

  /** An admitted request spent one token of each bucket, each at its own call. */
  lemma {:induction false} AdmittedSpentBoth(steps: seq<Step>, tiers: string -> TierLimits, i: nat, j: nat)
    requires Interleaving(steps, Verdicts(Calls(steps, tiers)))
    requires GetsThrough(steps, Verdicts(Calls(steps, tiers)), i, j)
    requires tiers(steps[i].id).rps >= 1 && tiers(steps[i].id).rpm >= 1
    ensures
      var log, id := Calls(steps, tiers), steps[i].id;
      && Spends(log, i, BurstCall(id, tiers(id), steps[i].at))
      && Spends(log, j, MinuteCall(id, tiers(id), steps[j].at))
  {
    ThroughIsBoth(steps, Verdicts(Calls(steps, tiers)), i, j);
    SpendsBoth(Calls(steps, tiers), i, j, CallOf(steps[i], tiers), CallOf(steps[j], tiers));
  }

  lemma ThroughIsBoth(steps: seq<Step>, allowed: seq<bool>, i: nat, j: nat)
    requires |allowed| == |steps| && Interleaving(steps, allowed) && GetsThrough(steps, allowed, i, j)
    ensures steps[i].bucket == Rps && steps[j].bucket == Rpm && steps[i].id == steps[j].id
    ensures allowed[i] && allowed[j]
  {
  }

  lemma {:induction false} SpendsBoth(log: seq<Call>, i: nat, j: nat, c: Call, d: Call)
    requires i < |log| && log[i] == c && c.window > 0 && c.limit >= 1 && Verdicts(log)[i]
    requires j < |log| && log[j] == d && d.window > 0 && d.limit >= 1 && Verdicts(log)[j]
    ensures Spends(log, i, c) && Spends(log, j, d)
  {
    AllowedSpends(log, i, c);
    AllowedSpends(log, j, d);
  }

  /** A refused burst call is the only call of its request, and leaves the minute bucket as it was. */
  lemma {:induction false} RefusedStopsThere(steps: seq<Step>, tiers: string -> TierLimits, i: nat)
    requires Interleaving(steps, Verdicts(Calls(steps, tiers))) && i < |steps|
    requires steps[i].bucket == Rps && !Verdicts(Calls(steps, tiers))[i] && tiers(steps[i].id).rps >= 1
    ensures forall j :: 0 <= j < |steps| && steps[j].request == steps[i].request ==> j == i
    ensures Spares(Calls(steps, tiers), i, RpmKey(steps[i].id))
  {
    OnlyCall(steps, Verdicts(Calls(steps, tiers)), i);
    KeysNeverCollide(steps[i].id, steps[i].id);
    OthersSpared(Calls(steps, tiers), i, BurstCall(steps[i].id, tiers(steps[i].id), steps[i].at), RpmKey(steps[i].id));
  }

  /** Call i leaves this bucket as it was. */
  ghost predicate Spares(log: seq<Call>, i: nat, key: string) {
    i < |log| && Live(StoreAfter(log[..i + 1]), key, log[i].at) == Live(StoreAfter(log[..i]), key, log[i].at)
  }

  lemma {:induction false} OthersSpared(log: seq<Call>, i: nat, c: Call, key: string)
    requires i < |log| && log[i] == c && c.key != key && c.window > 0 && c.limit >= 1
    ensures Spares(log, i, key)
  {
    CallAt(log, i);
  }

  lemma OnlyCall(steps: seq<Step>, allowed: seq<bool>, i: nat)
    requires |allowed| == |steps| && Interleaving(steps, allowed) && i < |steps|
    requires steps[i].bucket == Rps && !allowed[i]
    ensures forall j :: 0 <= j < |steps| && steps[j].request == steps[i].request ==> j == i
  {
    forall j | 0 <= j < |steps| && steps[j].request == steps[i].request ensures j == i {
      BurstThenMinute(steps, allowed, i, j);
      BurstThenMinute(steps, allowed, j, i);
    }
  }

  lemma BurstThenMinute(steps: seq<Step>, allowed: seq<bool>, i: nat, j: nat)
    requires |allowed| == |steps| && Interleaving(steps, allowed) && i < |steps| && j < |steps|
    ensures i < j && steps[i].request == steps[j].request ==> steps[j].bucket == Rpm && allowed[i]
  {
  }

  /** The calls of one id to one of its buckets are the log's calls for one key. */
  ghost predicate Follows(steps: seq<Step>, log: seq<Call>, id: string, bucket: Granularity, key: string) {
    && |log| == |steps|
    && forall i :: 0 <= i < |steps| && steps[i].id == id && steps[i].bucket == bucket ==>
         log[i].key == key && log[i].at == steps[i].at
  }

  lemma {:induction false} StepsFollow(steps: seq<Step>, tiers: string -> TierLimits, id: string)
    ensures Follows(steps, Calls(steps, tiers), id, Rps, RpsKey(id))
    ensures Follows(steps, Calls(steps, tiers), id, Rpm, RpmKey(id))
    ensures Configured(Calls(steps, tiers), RpsKey(id), tiers(id).rps, 1)
    ensures Configured(Calls(steps, tiers), RpmKey(id), tiers(id).rpm, 60)
  {
    forall i | 0 <= i < |steps|
      ensures CallOf(steps[i], tiers).key == RpsKey(id) ==> steps[i].id == id && steps[i].bucket == Rps
      ensures CallOf(steps[i], tiers).key == RpmKey(id) ==> steps[i].id == id && steps[i].bucket == Rpm
    {
      KeysNeverCollide(steps[i].id, id);
      KeysNeverCollide(id, steps[i].id);
    }
  }

  lemma {:induction false} AllowedNext(log: seq<Call>, n: nat, key: string, from: int, to: int)
    requires n < |log|
    ensures Allowed(log[..n + 1], key, from, to) == Allowed(log[..n], key, from, to)
      + if log[n].key == key && from <= log[n].at < to && Verdicts(log)[n] then 1 else 0
  {
    assert log[..n + 1][..n] == log[..n];
    VerdictIsReply(log, n);
  }

  lemma AdmittedStartAllowed(steps: seq<Step>, allowed: seq<bool>)
    requires |allowed| == |steps| && Interleaving(steps, allowed)
    ensures forall i :: 0 <= i < |steps| && Admits(steps, allowed, i) ==> steps[i].bucket == Rps && allowed[i]
  {
  }

  /** Every admitted request started with an allowed burst call. */
  lemma {:induction false} StartedAreAllowed(
      steps: seq<Step>, log: seq<Call>, id: string, key: string, from: int, to: int, n: nat)
    requires Follows(steps, log, id, Rps, key) && n <= |steps|
    requires forall i :: 0 <= i < |steps| && Admits(steps, Verdicts(log), i) ==>
      steps[i].bucket == Rps && Verdicts(log)[i]
    ensures StartedIn(steps, Verdicts(log), id, from, to, n) <= Allowed(log[..n], key, from, to)
  {
    if n > 0 {
      StartedAreAllowed(steps, log, id, key, from, to, n - 1);
      AllowedNext(log, n - 1, key, from, to);
    }
  }

  /** Every admitted request finished with an allowed minute call. */
  lemma {:induction false} FinishedAreAllowed(
      steps: seq<Step>, log: seq<Call>, id: string, key: string, from: int, to: int, n: nat)
    requires Follows(steps, log, id, Rpm, key) && n <= |steps|
    ensures FinishedIn(steps, Verdicts(log), id, from, to, n) <= Allowed(log[..n], key, from, to)
  {
    if n > 0 {
      FinishedAreAllowed(steps, log, id, key, from, to, n - 1);
      AllowedNext(log, n - 1, key, from, to);
    }
  }

  /**
   However checks interleave and keys expire, fewer than 2·rps requests started in any
   second are admitted, and fewer than 2·rpm finish in any minute.
   */
  lemma {:induction false} ChecksAreLimited(steps: seq<Step>, tiers: string -> TierLimits, id: string, from: int)
    requires Interleaving(steps, Verdicts(Calls(steps, tiers))) && tiers(id).rps >= 1 && tiers(id).rpm >= 1
    ensures StartedIn(steps, Verdicts(Calls(steps, tiers)), id, from, from + 1000, |steps|) <= 2 * tiers(id).rps - 1
    ensures FinishedIn(steps, Verdicts(Calls(steps, tiers)), id, from, from + 60000, |steps|) <= 2 * tiers(id).rpm - 1
  {
    StepsFollow(steps, tiers, id);
    LogIsLimited(steps, Calls(steps, tiers), id, tiers(id), from, RpsKey(id), RpmKey(id));
  }

  lemma {:induction false} LogIsLimited(
      steps: seq<Step>, log: seq<Call>, id: string, limits: TierLimits, from: int, burst: string, minute: string)
    requires Follows(steps, log, id, Rps, burst) && Follows(steps, log, id, Rpm, minute) && InTimeOrder(log)
    requires Interleaving(steps, Verdicts(log)) && limits.rps >= 1 && limits.rpm >= 1
    requires Configured(log, burst, limits.rps, 1) && Configured(log, minute, limits.rpm, 60)
    ensures StartedIn(steps, Verdicts(log), id, from, from + 1000, |steps|) <= 2 * limits.rps - 1
    ensures FinishedIn(steps, Verdicts(log), id, from, from + 60000, |steps|) <= 2 * limits.rpm - 1
  {
    assert log[..|steps|] == log;
    AdmittedStartAllowed(steps, Verdicts(log));
    StartedAreAllowed(steps, log, id, burst, from, from + 1000, |steps|);
    SpanAdmitsUnderTwiceLimit(log, burst, limits.rps, 1, from);
    FinishedAreAllowed(steps, log, id, minute, from, from + 60000, |steps|);
    SpanAdmitsUnderTwiceLimit(log, minute, limits.rpm, 60, from);
  }

  // ------------------------------------------------ requests that pile up

  /** When the j-th of 2·rpm requests finishes: one opens a bucket, the others wait for its very end. */
  function LateFinish(rpm: nat, j: nat): int {
    2000 * rpm + if j == 0 then 0 else if j < rpm then 59999 else 60000
  }

  /** 2·rpm requests start a second apart and finish as late, and as close together, as they can. */
  function PileUp(id: string, rpm: nat): (steps: seq<Step>)
    ensures |steps| == 4 * rpm
    ensures forall i :: 0 <= i < 2 * rpm ==> steps[i] == Step(i, id, Rps, 1000 * i)
    ensures forall i :: 2 * rpm <= i < 4 * rpm ==> steps[i] == Step(i - 2 * rpm, id, Rpm, LateFinish(rpm, i - 2 * rpm))
  {
    seq(4 * rpm, i requires 0 <= i =>
      if i < 2 * rpm then Step(i, id, Rps, 1000 * i) else Step(i - 2 * rpm, id, Rpm, LateFinish(rpm, i - 2 * rpm)))
  }

  /** The calls of a pile-up, for any two keys. */
  ghost predicate PilesUp(log: seq<Call>, burst: string, minute: string, rps: int, rpm: nat) {
    && |log| == 4 * rpm && burst != minute
    && (forall i :: 0 <= i < 2 * rpm ==> log[i] == Call(burst, rps, 1, 1000 * i))
    && (forall i :: 2 * rpm <= i < 4 * rpm ==> log[i] == Call(minute, rpm, 60, LateFinish(rpm, i - 2 * rpm)))
  }

  /** Each burst call finds its bucket expired; the minute calls use up one bucket, then another. */
  ghost predicate PiledTo(store: Store, burst: string, minute: string, rpm: nat, k: nat) {
    if k <= 2 * rpm then
      && minute !in store
      && (burst in store ==> store[burst].expiresAt == Some(1000 * k))
    else
      && minute in store
      && store[minute] == if k <= 3 * rpm then Entry(3 * rpm - k, Some(2000 * rpm + 60000))
                          else Entry(4 * rpm - k, Some(2000 * rpm + 120000))
  }

  lemma PileUpCall(store: Store, burst: string, minute: string, rps: int, rpm: nat, k: nat, c: Call)
    requires burst != minute && rps >= 1 && k < 4 * rpm && PiledTo(store, burst, minute, rpm, k)
    requires c == if k < 2 * rpm then Call(burst, rps, 1, 1000 * k)
                  else Call(minute, rpm, 60, LateFinish(rpm, k - 2 * rpm))
    ensures PiledTo(ScriptStore(store, c.key, c.limit, c.window, c.at), burst, minute, rpm, k + 1)
    ensures ScriptReply(store, c.key, c.limit, c.window, c.at).allowed
  {
  }

  ghost predicate PiledAt(log: seq<Call>, burst: string, minute: string, rpm: nat, k: nat)
    requires k <= |log|
  {
    PiledTo(StoreAfter(log[..k]), burst, minute, rpm, k)
  }

  lemma {:induction false} PileUpNext(log: seq<Call>, burst: string, minute: string, rps: int, rpm: nat, k: nat)
    requires PilesUp(log, burst, minute, rps, rpm) && rps >= 1 && k < 4 * rpm && PiledAt(log, burst, minute, rpm, k)
    ensures PiledAt(log, burst, minute, rpm, k + 1)
    ensures ReplyTo(log[..k], log[k]).allowed
  {
    assert log[..k + 1] == log[..k] + [log[k]];
    StoreAfterSnoc(log[..k], log[k]);
    PileUpCall(StoreAfter(log[..k]), burst, minute, rps, rpm, k, log[k]);
  }

  lemma {:induction false} PileUpStore(log: seq<Call>, burst: string, minute: string, rps: int, rpm: nat, k: nat)
    requires PilesUp(log, burst, minute, rps, rpm) && rps >= 1 && k <= 4 * rpm
    ensures PiledAt(log, burst, minute, rpm, k)
  {
    if k > 0 {
      PileUpStore(log, burst, minute, rps, rpm, k - 1);
      PileUpNext(log, burst, minute, rps, rpm, k - 1);
    }
  }

  lemma {:induction false} PileUpCalls(tiers: string -> TierLimits, id: string, rpm: nat)
    requires tiers(id).rpm == rpm
    ensures PilesUp(Calls(PileUp(id, rpm), tiers), RpsKey(id), RpmKey(id), tiers(id).rps, rpm)
  {
    KeysNeverCollide(id, id);
    CallsArePileUp(PileUp(id, rpm), Calls(PileUp(id, rpm), tiers), tiers, id, rpm);
  }

  lemma CallsArePileUp(steps: seq<Step>, log: seq<Call>, tiers: string -> TierLimits, id: string, rpm: nat)
    requires steps == PileUp(id, rpm) && |log| == |steps| && tiers(id).rpm == rpm && RpsKey(id) != RpmKey(id)
    requires forall i :: 0 <= i < |steps| ==> log[i] == CallOf(steps[i], tiers)
    ensures PilesUp(log, RpsKey(id), RpmKey(id), tiers(id).rps, rpm)
  {
  }

  lemma {:induction false} PileUpVerdicts(log: seq<Call>, burst: string, minute: string, rps: int, rpm: nat)
    requires PilesUp(log, burst, minute, rps, rpm) && rps >= 1
    ensures forall i :: 0 <= i < 4 * rpm ==> Verdicts(log)[i]
  {
    forall i | 0 <= i < 4 * rpm ensures Verdicts(log)[i] {
      PileUpStore(log, burst, minute, rps, rpm, i);
      PileUpNext(log, burst, minute, rps, rpm, i);
      VerdictIsReply(log, i);
    }
  }

  /** An interleaving in which n requests of the id finish within two milliseconds. */
  ghost predicate Crowded(steps: seq<Step>, allowed: seq<bool>, id: string, at: int, n: nat)
    requires |allowed| == |steps|
  {
    Interleaving(steps, allowed) && FinishedIn(steps, allowed, id, at, at + 2, |steps|) == n
  }

  /**
   The bound on finishes is met, and nothing else spreads them out: started a second apart,
   one less than twice the minute limit can finish within two milliseconds.
   */
  lemma {:induction false} FinishesCanPileUp(tiers: string -> TierLimits, id: string, rpm: nat)
    requires tiers(id).rps >= 1 && 1 <= tiers(id).rpm == rpm
    ensures Crowded(PileUp(id, rpm), Verdicts(Calls(PileUp(id, rpm), tiers)), id, 2000 * rpm + 59999, 2 * rpm - 1)
  {
    var log := Calls(PileUp(id, rpm), tiers);
    PileUpCalls(tiers, id, rpm);
    PileUpVerdicts(log, RpsKey(id), RpmKey(id), tiers(id).rps, rpm);
    PileUpIsCrowded(id, rpm, Verdicts(log));
  }

  lemma {:induction false} PileUpIsCrowded(id: string, rpm: nat, allowed: seq<bool>)
    requires |allowed| == 4 * rpm && rpm >= 1 && forall i :: 0 <= i < 4 * rpm ==> allowed[i]
    ensures Crowded(PileUp(id, rpm), allowed, id, 2000 * rpm + 59999, 2 * rpm - 1)
  {
    PileUpInterleaves(id, rpm, allowed);
    PileUpFinishes(id, rpm, allowed, 4 * rpm);
  }

  lemma {:induction false} PileUpInterleaves(id: string, rpm: nat, allowed: seq<bool>)
    requires |allowed| == 4 * rpm && forall i :: 0 <= i < 4 * rpm ==> allowed[i]
    ensures Interleaving(PileUp(id, rpm), allowed)
  {
    var steps := PileUp(id, rpm);
    forall j | 0 <= j < 4 * rpm && steps[j].bucket == Rpm
      ensures exists i :: 0 <= i < j && steps[i].request == steps[j].request
    {
      assert steps[j - 2 * rpm].request == steps[j].request;
    }
  }

  lemma {:induction false} PileUpFinishes(id: string, rpm: nat, allowed: seq<bool>, k: nat)
    requires |allowed| == 4 * rpm && (forall i :: 0 <= i < 4 * rpm ==> allowed[i]) && k <= 4 * rpm
    ensures
      var late := 2000 * rpm + 59999;
      FinishedIn(PileUp(id, rpm), allowed, id, late, late + 2, k) == if k <= 2 * rpm then 0 else k - 2 * rpm - 1
  {
    if k > 0 {
      PileUpFinishes(id, rpm, allowed, k - 1);
    }
  }

  lemma {:induction false} LongerSpanFinishesMore(
      steps: seq<Step>, allowed: seq<bool>, id: string, from: int, to: int, later: int, n: nat)
    requires n <= |steps| == |allowed| && to <= later
    ensures FinishedIn(steps, allowed, id, from, to, n) <= FinishedIn(steps, allowed, id, from, later, n)
  {
    if n > 0 {
      LongerSpanFinishesMore(steps, allowed, id, from, to, later, n - 1);
    }
  }

  /** If these steps are an interleaving, at most `bound` requests of the id finish in this second. */
  ghost predicate SecondBounded(steps: seq<Step>, allowed: seq<bool>, id: string, from: int, bound: int)
    requires |allowed| == |steps|
  {
    Interleaving(steps, allowed) ==> FinishedIn(steps, allowed, id, from, from + 1000, |steps|) <= bound
  }

  /** However checks interleave, at most `bound` requests of the id finish in any second. */
  ghost predicate EverySecondBounded(tiers: string -> TierLimits, id: string, bound: int) {
    forall steps, from :: SecondBounded(steps, Verdicts(Calls(steps, tiers)), id, from, bound)
  }

  /**
   What the per-second limit promises where requests start, it promises where they finish
   exactly when the limit per minute is no larger.
   */
  lemma {:induction false} FinishesLimitedIff(tiers: string -> TierLimits, id: string)
    requires tiers(id).rps >= 1 && tiers(id).rpm >= 1
    ensures EverySecondBounded(tiers, id, 2 * tiers(id).rps - 1) <==> tiers(id).rpm <= tiers(id).rps
  {
    if tiers(id).rpm <= tiers(id).rps {
      MinuteBoundsEverySecond(tiers, id, 2 * tiers(id).rps - 1);
    } else {
      PileUpBreaksSecond(tiers, id, tiers(id).rpm, 2 * tiers(id).rps - 1);
    }
  }

  lemma {:induction false} PileUpBreaksSecond(tiers: string -> TierLimits, id: string, rpm: nat, bound: int)
    requires tiers(id).rps >= 1 && 1 <= tiers(id).rpm == rpm && bound < 2 * rpm - 1
    ensures !EverySecondBounded(tiers, id, bound)
  {
    var steps, late := PileUp(id, rpm), 2000 * rpm + 59999;
    FinishesCanPileUp(tiers, id, rpm);
    CrowdBreaksSecond(steps, Verdicts(Calls(steps, tiers)), id, late, 2 * rpm - 1, bound);
  }

  lemma {:induction false} MinuteBoundsEverySecond(tiers: string -> TierLimits, id: string, bound: int)
    requires 1 <= tiers(id).rpm <= tiers(id).rps && bound == 2 * tiers(id).rps - 1
    ensures EverySecondBounded(tiers, id, bound)
  {
    forall steps, from ensures SecondBounded(steps, Verdicts(Calls(steps, tiers)), id, from, bound) {
      MinuteBoundsSecond(steps, tiers, id, from);
    }
  }

  lemma {:induction false} MinuteBoundsSecond(steps: seq<Step>, tiers: string -> TierLimits, id: string, from: int)
    requires 1 <= tiers(id).rpm <= tiers(id).rps
    ensures SecondBounded(steps, Verdicts(Calls(steps, tiers)), id, from, 2 * tiers(id).rps - 1)
  {
    var allowed := Verdicts(Calls(steps, tiers));
    if Interleaving(steps, allowed) {
      ChecksAreLimited(steps, tiers, id, from);
      LongerSpanFinishesMore(steps, allowed, id, from, from + 1000, from + 60000, |steps|);
    }
  }

  lemma {:induction false} CrowdBreaksSecond(
      steps: seq<Step>, allowed: seq<bool>, id: string, at: int, n: nat, bound: int)
    requires |allowed| == |steps| && Crowded(steps, allowed, id, at, n) && bound < n
    ensures !SecondBounded(steps, allowed, id, at, bound)
  {
    LongerSpanFinishesMore(steps, allowed, id, at, at + 2, at + 1000, |steps|);
  }
}
