/**
 The fixed-window limiter (checkRateLimit and rateLimitScript in server/cmd/chat/service.go).  The runs are
 runs with Redis available.  Times are milliseconds; a key lives strictly before its expiry.
 */
module RateLimit {
  import opened Common

  /** INCR alone leaves a new key without an expiry. */
  datatype Entry = Entry(count: nat, expires: Option<int>)

  type Keys = map<string, Entry>

  datatype Call = Call(key: string, windowSec: int, max: int, now: int)

  predicate Live(s: Keys, key: string, now: int) {
    key in s && (s[key].expires.None? || now < s[key].expires.value)
  }

  function Increment(s: Keys, key: string, now: int): Keys {
    if Live(s, key, now) then s[key := s[key].(count := s[key].count + 1)] else s[key := Entry(1, None)]
  }

  /** EXPIRE with a non-positive time deletes the key. */
  function Expire(s: Keys, key: string, now: int, seconds: int): Keys
    requires key in s
  {
    if seconds <= 0 then s - {key} else s[key := s[key].(expires := Some(now + 1000 * seconds))]
  }

  /** The script: atomic. */
  function Script(s: Keys, c: Call): (Keys, nat) {
    var s1 := Increment(s, c.key, c.now);
    var count := s1[c.key].count;
    (if count == 1 then Expire(s1, c.key, c.now, c.windowSec) else s1, count)
  }

  predicate Admits(s: Keys, c: Call) {
    Script(s, c).1 <= c.max
  }

  class Limiter {
    var keys: Keys

    constructor ()
      ensures keys == map[]
    {
      keys := map[];
    }

    /** checkRateLimit: true when the request may go on.  Without Redis every request may, and nothing is counted. */
    method Check(c: Call, redisUp: bool) returns (ok: bool)
      modifies this
      ensures keys == if redisUp then Script(old(keys), c).0 else old(keys)
      ensures ok <==> !redisUp || Admits(old(keys), c)
    {
      if !redisUp {
        return true;
      }
      keys := Increment(keys, c.key, c.now);
      var count := keys[c.key].count;
      if count == 1 {
        keys := Expire(keys, c.key, c.now, c.windowSec);
      }
      ok := !(count > c.max);
    }
  }

  // ----- runs

  ghost function Run(s: Keys, calls: seq<Call>): Keys {
    if calls == [] then s else Script(Run(s, calls[..|calls| - 1]), calls[|calls| - 1]).0
  }

  ghost predicate InOrder(calls: seq<Call>) {
    forall i, j :: 0 <= i < j < |calls| ==> calls[i].now <= calls[j].now
  }

  /** All calls on the key use one window and one limit. */
  ghost predicate Uniform(calls: seq<Call>, key: string, windowSec: int, max: int) {
    forall i :: 0 <= i < |calls| && calls[i].key == key ==> calls[i].windowSec == windowSec && calls[i].max == max
  }

  predicate Within(c: Call, key: string, from: int, to: int) {
    c.key == key && from <= c.now < to
  }

  /** Requests on the key in [from, to), and those of them admitted. */
  ghost function Requests(calls: seq<Call>, key: string, from: int, to: int): nat {
    if calls == [] then 0
    else
      var n := |calls| - 1;
      Requests(calls[..n], key, from, to) + if Within(calls[n], key, from, to) then 1 else 0
  }

  ghost function Admitted(calls: seq<Call>, key: string, from: int, to: int): nat {
    if calls == [] then 0
    else
      var n := |calls| - 1;
      Admitted(calls[..n], key, from, to) + if Within(calls[n], key, from, to)
        && Admits(Run(map[], calls[..n]), calls[n]) then 1 else 0
  }

  /** No key is ever left without an expiry, whatever the calls. */
  lemma {:induction false} AlwaysExpires(calls: seq<Call>)
    ensures forall k :: k in Run(map[], calls) ==> Run(map[], calls)[k].expires.Some? && Run(map[], calls)[k].count >= 1
  {
    if calls != [] {
      AlwaysExpires(calls[..|calls| - 1]);
    }
  }

  function Min(a: int, b: int): int {
    if a < b then a else b
  }

  /** Before an interval begins nothing in it has happened. */
  lemma {:induction false} NothingYet(calls: seq<Call>, key: string, from: int, to: int, now: int)
    requires forall i :: 0 <= i < |calls| ==> calls[i].now <= now
    requires now < from
    ensures Admitted(calls, key, from, to) == 0 && Requests(calls, key, from, to) == 0
  {
    if calls != [] {
      NothingYet(calls[..|calls| - 1], key, from, to, now);
    }
  }

  // ----- any interval of one window

  /** What an entry says about the admissions of an interval [from, from + w), when the key has been used. */
  ghost predicate Covers(e: Entry, w: int, max: nat, from: int, total: nat) {
    e.expires.Some? &&
    var started := e.expires.value - w;
    // begun before the interval: the first admission of this lifetime lies outside
    if started < from then total <= Min(e.count, max) - 1
    // begun inside: it may follow one other lifetime
    else if started < from + w then total <= max - 1 + Min(e.count, max)
    // begun after: nothing of it counts
    else total <= 2 * max - 1
  }

  ghost predicate Accounted(calls: seq<Call>, key: string, w: int, max: nat, from: int) {
    var s, total := Run(map[], calls), Admitted(calls, key, from, from + w);
    if key in s then
      s[key].count >= 1 && Covers(s[key], w, max, from, total) && calls != []
        && s[key].expires.value - w <= calls[|calls| - 1].now
    else total == 0
  }

  /** A request on a live key: one more in the same lifetime. */
  lemma SameLifetime(e: Entry, w: int, max: nat, from: int, total: nat, now: int)
    requires e.count >= 1 && max >= 1 && w > 0 && Covers(e, w, max, from, total)
    requires e.expires.value - w <= now < e.expires.value
    ensures Covers(e.(count := e.count + 1), w, max, from, total + if from <= now < from + w
      && e.count + 1 <= max then 1 else 0)
  {
  }

  /** A request on a dead key: its lifetime ended before, so it covered the interval alone. */
  lemma NextLifetime(e: Entry, w: int, max: nat, from: int, total: nat, now: int)
    requires max >= 1 && w > 0 && Covers(e, w, max, from, total) && e.expires.value <= now
    requires now < from ==> total == 0
    ensures Covers(Entry(1, Some(now + w)), w, max, from, total + if from <= now < from + w then 1 else 0)
  {
  }

  /** What the script leaves under a key. */
  lemma ScriptIs(s: Keys, c: Call)
    requires c.windowSec > 0 && (c.key in s ==> s[c.key].count >= 1)
    ensures Live(s, c.key, c.now) ==>
      c.key in Script(s, c).0 && Script(s, c).0[c.key] == s[c.key].(count := s[c.key].count + 1)
        && Script(s, c).1 == s[c.key].count + 1
    ensures !Live(s, c.key, c.now) ==>
      c.key in Script(s, c).0 && Script(s, c).0[c.key] == Entry(1, Some(c.now + 1000 * c.windowSec))
        && Script(s, c).1 == 1
  {
  }

  lemma ScriptLeaves(s: Keys, c: Call, key: string)
    requires c.key != key
    ensures (key in Script(s, c).0 <==> key in s) && (key in s ==> Script(s, c).0[key] == s[key])
  {
  }

  lemma AccountOne(calls: seq<Call>, key: string, windowSec: int, max: nat, from: int)
    requires calls != [] && InOrder(calls) && Uniform(calls, key, windowSec, max) && windowSec > 0 && max >= 1
    requires Accounted(calls[..|calls| - 1], key, 1000 * windowSec, max, from)
    ensures Accounted(calls, key, 1000 * windowSec, max, from)
  {
    var n, w := |calls| - 1, 1000 * windowSec;
    var p, c := calls[..n], calls[n];
    var s, total := Run(map[], p), Admitted(p, key, from, from + w);
    if c.key != key {
      ScriptLeaves(s, c, key);
      assert key in s ==> p[n - 1].now <= c.now;
      return;
    }
    ScriptIs(s, c);
    if Live(s, key, c.now) {
      assert p[n - 1].now <= c.now;
      SameLifetime(s[key], w, max, from, total, c.now);
    } else {
      if c.now < from {
        NothingYet(p, key, from, from + w, c.now);
      }
      if key in s {
        NextLifetime(s[key], w, max, from, total, c.now);
      }
    }
  }

  lemma {:induction false} AccountedAlways(calls: seq<Call>, key: string, windowSec: int, max: nat, from: int)
    requires InOrder(calls) && Uniform(calls, key, windowSec, max) && windowSec > 0 && max >= 1
    ensures Accounted(calls, key, 1000 * windowSec, max, from)
  {
    if calls != [] {
      AccountedAlways(calls[..|calls| - 1], key, windowSec, max, from);
      AccountOne(calls, key, windowSec, max, from);
    }
  }

  /** Over every arrival sequence, fewer than twice the limit pass in any half-open interval of one window. */
  lemma FewerThanTwice(calls: seq<Call>, key: string, windowSec: int, max: nat, from: int)
    requires InOrder(calls) && Uniform(calls, key, windowSec, max) && windowSec > 0 && max >= 1
    ensures Admitted(calls, key, from, from + 1000 * windowSec) <= 2 * max - 1
  {
    AccountedAlways(calls, key, windowSec, max, from);
  }

  /** A limit below one admits nothing. */
  lemma {:induction false} NothingPasses(calls: seq<Call>, key: string, windowSec: int, max: int, from: int, to: int)
    requires Uniform(calls, key, windowSec, max) && max <= 0
    ensures Admitted(calls, key, from, to) == 0
  {
    if calls != [] {
      NothingPasses(calls[..|calls| - 1], key, windowSec, max, from, to);
    }
  }

  /** `n` requests at one instant. */
  function Burst(key: string, windowSec: int, max: int, now: int, n: nat): seq<Call> {
    seq(n, _ => Call(key, windowSec, max, now))
  }

  /** After `p` the key's entry is this one, and so many requests of the interval have passed. */
  ghost predicate Stands(p: seq<Call>, key: string, e: Entry, from: int, to: int, admitted: int) {
    key in Run(map[], p) && Run(map[], p)[key] == e && Admitted(p, key, from, to) == admitted
  }

  lemma OneMore(p: seq<Call>, c: Call, e: Entry, e': Entry, from: int, to: int, admitted: int)
    requires Stands(p, c.key, e, from, to, admitted) && from <= c.now < to
    requires e.expires.Some? && e.count >= 1 && 0 < c.windowSec
    requires e' ==
      if c.now < e.expires.value then e.(count := e.count + 1) else Entry(1, Some(c.now + 1000 * c.windowSec))
    requires e'.count <= c.max
    ensures Stands(p + [c], c.key, e', from, to, admitted + 1)
  {
    var q := p + [c];
    assert q[..|p|] == p && q[|p|] == c;
  }

  /** A burst on a live key that stays within the limit passes whole. */
  lemma {:induction false} BurstPasses(p: seq<Call>, c: Call, n: nat, from: int, to: int, count: nat, expires: int,
      admitted: int)
    requires Stands(p, c.key, Entry(count, Some(expires)), from, to, admitted)
    requires c.now < expires && from <= c.now < to && 1 <= count && count + n <= c.max && 0 < c.windowSec
    ensures Stands(p + Burst(c.key, c.windowSec, c.max, c.now, n), c.key, Entry(count + n, Some(expires)), from, to,
      admitted + n)
  {
    var q := p + Burst(c.key, c.windowSec, c.max, c.now, n);
    if n == 0 {
      assert q == p;
    } else {
      var q' := p + Burst(c.key, c.windowSec, c.max, c.now, n - 1);
      BurstPasses(p, c, n - 1, from, to, count, expires, admitted);
      OneMore(q', c, Entry(count + n - 1, Some(expires)), Entry(count + n, Some(expires)), from, to, admitted + n - 1);
      assert q == q' + [c];
    }
  }

  /** One request at 0, the rest of the limit at the end of its window, and a whole limit at the start of the next. */
  function Worst(key: string, windowSec: int, max: nat): seq<Call>
    requires max >= 1
  {
    [Call(key, windowSec, max, 0)] + Burst(key, windowSec, max, 1000 * windowSec - 1, max - 1)
    + [Call(key, windowSec, max, 1000 * windowSec)] + Burst(key, windowSec, max, 1000 * windowSec, max - 1)
  }

  lemma FirstPart(key: string, windowSec: int, max: nat)
    requires max >= 1 && windowSec >= 1
    ensures
      var w := 1000 * windowSec;
      var p := [Call(key, windowSec, max, 0)] + Burst(key, windowSec, max, w - 1, max - 1);
      Stands(p, key, Entry(max, Some(w)), 1, 1 + w, max - 1)
  {
    var w, c := 1000 * windowSec, Call(key, windowSec, max, 0);
    assert [c][..0] == [] && [c][0] == c;
    assert Run(map[], [c]) == map[key := Entry(1, Some(w))];
    BurstPasses([c], Call(key, windowSec, max, w - 1), max - 1, 1, 1 + w, 1, w, 0);
  }

  lemma WorstIsInOrder(key: string, windowSec: int, max: nat)
    requires max >= 1 && windowSec >= 1
    ensures InOrder(Worst(key, windowSec, max)) && Uniform(Worst(key, windowSec, max), key, windowSec, max)
  {
    var calls, w := Worst(key, windowSec, max), 1000 * windowSec;
    assert forall i :: 0 <= i < |calls| ==>
      calls[i] == Call(key, windowSec, max, if i == 0 then 0 else if i < max then w - 1 else w);
  }

  /** A whole limit more passes when the window that `p` has used up ends. */
  lemma SecondPart(p: seq<Call>, key: string, windowSec: int, max: nat, admitted: int)
    requires max >= 1 && windowSec >= 1
    requires Stands(p, key, Entry(max, Some(1000 * windowSec)), 1, 1 + 1000 * windowSec, admitted)
    ensures
      var w := 1000 * windowSec;
      var q := p + [Call(key, windowSec, max, w)] + Burst(key, windowSec, max, w, max - 1);
      Stands(q, key, Entry(max, Some(2 * w)), 1, 1 + w, admitted + max)
  {
    var w := 1000 * windowSec;
    var c := Call(key, windowSec, max, w);
    OneMore(p, c, Entry(max, Some(w)), Entry(1, Some(2 * w)), 1, 1 + w, admitted);
    BurstPasses(p + [c], c, max - 1, 1, 1 + w, 1, 2 * w, admitted + 1);
  }

  lemma WorstAdmits(key: string, windowSec: int, max: nat)
    requires max >= 1 && windowSec >= 1
    ensures Admitted(Worst(key, windowSec, max), key, 1, 1 + 1000 * windowSec) == 2 * max - 1
  {
    FirstPart(key, windowSec, max);
    var p := [Call(key, windowSec, max, 0)] + Burst(key, windowSec, max, 1000 * windowSec - 1, max - 1);
    SecondPart(p, key, windowSec, max, max - 1);
  }

  /** The bound is met, for every limit and window. */
  lemma BoundIsReached(key: string, windowSec: int, max: nat)
    requires max >= 1 && windowSec >= 1
    ensures InOrder(Worst(key, windowSec, max)) && Uniform(Worst(key, windowSec, max), key, windowSec, max)
    ensures Admitted(Worst(key, windowSec, max), key, 1, 1 + 1000 * windowSec) == 2 * max - 1
  {
    WorstAdmits(key, windowSec, max);
    WorstIsInOrder(key, windowSec, max);
  }

  // ----- one lifetime

  /** The key's entry is the one begun at `start`, and it counts the requests since. */
  ghost predicate Counts(calls: seq<Call>, key: string, w: int, max: nat, start: int) {
    var s := Run(map[], calls);
    && key in s && s[key] == Entry(Requests(calls, key, start, start + w), Some(start + w))
    && Admitted(calls, key, start, start + w) == Min(Requests(calls, key, start, start + w), max)
  }

  /** What holds once the lifetime is over. */
  ghost predicate Settled(calls: seq<Call>, key: string, w: int, max: nat, start: int) {
    Admitted(calls, key, start, start + w) == Min(Requests(calls, key, start, start + w), max)
  }

  /** After a request the key is live, so a dead key was last asked for earlier. */
  lemma {:induction false} LastAskedEarlier(calls: seq<Call>, key: string, windowSec: int, now: int, to: int)
    requires InOrder(calls) && windowSec > 0 && forall i :: 0 <= i < |calls| ==> calls[i].now <= now
    requires forall i :: 0 <= i < |calls| && calls[i].key == key ==> calls[i].windowSec == windowSec
    requires !Live(Run(map[], calls), key, now)
    ensures Requests(calls, key, now, to) == 0 && Admitted(calls, key, now, to) == 0
  {
    if calls != [] {
      var n := |calls| - 1;
      AlwaysExpires(calls[..n]);
      LastAskedEarlier(calls[..n], key, windowSec, now, to);
    }
  }

  /** One more call inside the lifetime. */
  lemma CountOne(calls: seq<Call>, key: string, windowSec: int, max: nat, start: int)
    requires calls != [] && Uniform(calls, key, windowSec, max) && windowSec > 0
    requires start <= calls[|calls| - 1].now < start + 1000 * windowSec
    requires Counts(calls[..|calls| - 1], key, 1000 * windowSec, max, start)
      && Requests(calls[..|calls| - 1], key, start, start + 1000 * windowSec) >= 1
    ensures Counts(calls, key, 1000 * windowSec, max, start)
      && Requests(calls, key, start, start + 1000 * windowSec) >= 1
  {
  }

  /** One more call after it. */
  lemma SettledOne(calls: seq<Call>, key: string, w: int, max: nat, start: int)
    requires calls != [] && calls[|calls| - 1].now >= start + w && Settled(calls[..|calls| - 1], key, w, max, start)
    ensures Settled(calls, key, w, max, start)
  {
  }

  /** The request that finds the key dead. */
  lemma CountFirst(calls: seq<Call>, key: string, windowSec: int, max: nat)
    requires calls != [] && InOrder(calls) && Uniform(calls, key, windowSec, max) && windowSec > 0
    requires calls[|calls| - 1].key == key && !Live(Run(map[], calls[..|calls| - 1]), key, calls[|calls| - 1].now)
    ensures
      var start, w := calls[|calls| - 1].now, 1000 * windowSec;
      Counts(calls, key, w, max, start) && Requests(calls, key, start, start + w) == 1
  {
    var n := |calls| - 1;
    LastAskedEarlier(calls[..n], key, windowSec, calls[n].now, calls[n].now + 1000 * windowSec);
  }

  /** Where a lifetime begun at `start` stands: settled, and counting while it lasts. */
  ghost predicate InLife(calls: seq<Call>, key: string, w: int, max: nat, start: int) {
    && calls != [] && start <= calls[|calls| - 1].now && Settled(calls, key, w, max, start)
    && (calls[|calls| - 1].now < start + w ==>
      Counts(calls, key, w, max, start) && Requests(calls, key, start, start + w) >= 1)
  }

  lemma LivesOn(calls: seq<Call>, key: string, windowSec: int, max: nat, start: int)
    requires |calls| >= 2 && calls[|calls| - 2].now <= calls[|calls| - 1].now
    requires Uniform(calls, key, windowSec, max) && windowSec > 0
    requires InLife(calls[..|calls| - 1], key, 1000 * windowSec, max, start)
    ensures InLife(calls, key, 1000 * windowSec, max, start)
  {
    var n := |calls| - 1;
    assert calls[..n][n - 1] == calls[n - 1];
    if calls[n].now < start + 1000 * windowSec {
      CountOne(calls, key, windowSec, max, start);
    } else {
      SettledOne(calls, key, 1000 * windowSec, max, start);
    }
  }

  /** A request that finds the key dead at `start` begins a lifetime in which exactly the first `max` requests pass. */
  lemma {:induction false} OneLifetime(calls: seq<Call>, i: nat, key: string, windowSec: int, max: nat)
    requires InOrder(calls) && Uniform(calls, key, windowSec, max) && windowSec > 0
    requires i < |calls| && calls[i].key == key && !Live(Run(map[], calls[..i]), key, calls[i].now)
    ensures InLife(calls, key, 1000 * windowSec, max, calls[i].now)
    decreases |calls|
  {
    var n := |calls| - 1;
    if i == n {
      CountFirst(calls, key, windowSec, max);
    } else {
      assert calls[..n][..i] == calls[..i];
      OneLifetime(calls[..n], i, key, windowSec, max);
      LivesOn(calls, key, windowSec, max, calls[i].now);
    }
  }
}
