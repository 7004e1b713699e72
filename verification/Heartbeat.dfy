/** The Engine.IO heartbeat: when silence of the server is reported, with a timer that fires
    exactly on time.  How the worker is started and stopped is part of `EngineMachine`. */
module Heartbeat {

  predicate Sorted(times: seq<int>) {
    forall i, j :: 0 <= i < j < |times| ==> times[i] <= times[j]
  }

  /** The latest of `times` that is not after `t`; there is one because the first is not. */
  function Latest(times: seq<int>, t: int): (r: int)
    requires times != [] && times[0] <= t
    ensures r in times && r <= t
    ensures Sorted(times) ==> forall x :: x in times && x <= t ==> x <= r
  {
    var last := |times| - 1;
    if times[last] <= t then times[last]
    else
      assert times == times[..last] + [times[last]];
      Latest(times[..last], t)
  }

  /** After the message at position `i` the server is silent long enough to be reported. */
  predicate Silent(times: seq<int>, i: int, interval: int, timeout: int) {
    0 <= i < |times| && (i + 1 < |times| ==> times[i + 1] > times[i] + 2 * interval + timeout)
  }

  lemma LatestInSilence(times: seq<int>, i: int, t: int, interval: int, timeout: int)
    requires Sorted(times) && times != [] && times[0] <= t && Silent(times, i, interval, timeout)
    requires times[i] <= t <= times[i] + 2 * interval + timeout
    ensures Latest(times, t) == times[i]
  {
    assert times[i] in times;
  }

  /** The instant of the n-th wake. */
  function Wake(start: int, interval: int, n: nat): (t: int)
    requires interval > 0
    ensures t >= start && t == start + n * interval
  {
    if n == 0 then start else Wake(start, interval, n - 1) + interval
  }

  /** The server has been silent too long at time `t`. */
  predicate Overdue(messages: seq<int>, interval: int, timeout: int, t: int)
    requires messages != [] && messages[0] <= t
  {
    t - Latest(messages, t) > interval + timeout
  }

  /** Whatever silence there is, `t` is at most `bound` behind its beginning. */
  predicate Within(messages: seq<int>, interval: int, timeout: int, t: int, bound: int) {
    forall i :: 0 <= i < |messages| && Silent(messages, i, interval, timeout) ==> t <= messages[i] + bound
  }

  /** Some message came at most `span` before `t`. */
  predicate Heard(messages: seq<int>, t: int, span: int) {
    exists m :: m in messages && m <= t <= m + span
  }

  lemma LatestIsLast(messages: seq<int>, t: int)
    requires Sorted(messages) && messages != [] && messages[0] <= t
    ensures Latest(messages, t) in messages && Latest(messages, t) <= t
    ensures forall m :: m in messages && m <= t ==> m <= Latest(messages, t)
  {
  }

  lemma WithinIs(messages: seq<int>, interval: int, timeout: int, t: int, bound: int)
    requires Within(messages, interval, timeout, t, bound)
    ensures forall i :: 0 <= i < |messages|
                        && (i + 1 < |messages| ==> messages[i + 1] > messages[i] + 2 * interval + timeout) ==>
                          t <= messages[i] + bound
  {
    forall i | 0 <= i < |messages|
               && (i + 1 < |messages| ==> messages[i + 1] > messages[i] + 2 * interval + timeout)
      ensures t <= messages[i] + bound
    {
      assert Silent(messages, i, interval, timeout);
    }
  }

  lemma CalmIsHeard(messages: seq<int>, interval: int, timeout: int, n: nat)
    requires Sorted(messages) && messages != [] && interval > 0 && Calm(messages, interval, timeout, n)
    ensures forall k: nat :: k <= n ==> Heard(messages, messages[0] + k * interval, interval + timeout)
  {
    forall k: nat | k <= n
      ensures Heard(messages, messages[0] + k * interval, interval + timeout)
    {
      var t := Wake(messages[0], interval, k);
      assert !Overdue(messages, interval, timeout, t);
      LatestIsLast(messages, t);
    }
  }

  /** No wake up to the n-th was overdue. */
  predicate Calm(messages: seq<int>, interval: int, timeout: int, n: nat)
    requires messages != [] && interval > 0
  {
    forall k: nat :: k <= n ==> !Overdue(messages, interval, timeout, Wake(messages[0], interval, k))
  }

  lemma CalmWake(messages: seq<int>, interval: int, timeout: int, t: int)
    requires Sorted(messages) && messages != [] && messages[0] <= t && interval > 0
    requires Within(messages, interval, timeout, t, 2 * interval + timeout) && !Overdue(messages, interval, timeout, t)
    ensures Within(messages, interval, timeout, t, interval + timeout)
  {
    forall i | 0 <= i < |messages| && Silent(messages, i, interval, timeout)
      ensures t <= messages[i] + interval + timeout
    {
      if messages[i] <= t {
        LatestInSilence(messages, i, t, interval, timeout);
      }
    }
  }

  lemma CalmStart(messages: seq<int>, interval: int, timeout: int)
    requires Sorted(messages) && messages != [] && interval > 0 && timeout >= 0
    ensures Calm(messages, interval, timeout, 0)
    ensures Within(messages, interval, timeout, messages[0], interval + timeout)
  {
    assert messages[0] in messages;
  }

  /** The worker's loop.  `messages` are the times at which `last_pong_` was set: the handshake
      first, then pings and pongs; other packets do not count.  The worker wakes every `interval`
      after the handshake.  It reports at the first wake that follows more than
      `interval + timeout` of silence, and never later than `2 * interval + timeout` after the
      message which that silence follows. */
  method Watch(messages: seq<int>, interval: int, timeout: int) returns (n: nat, report: int)
    requires Sorted(messages) && messages != [] && interval > 0 && timeout >= 0
    ensures n > 0 && report == messages[0] + n * interval
    ensures Overdue(messages, interval, timeout, report) && Calm(messages, interval, timeout, n - 1)
    ensures Within(messages, interval, timeout, report, 2 * interval + timeout)
    ensures forall m :: m in messages && m <= report ==> report - m > interval + timeout
    ensures forall k: nat :: k < n ==> Heard(messages, messages[0] + k * interval, interval + timeout)
    ensures forall i :: 0 <= i < |messages|
                        && (i + 1 < |messages| ==> messages[i + 1] > messages[i] + 2 * interval + timeout) ==>
                          report <= messages[i] + 2 * interval + timeout
  {
    hide Latest, Calm, Heard;
    ghost var last := |messages| - 1;
    assert Silent(messages, last, interval, timeout);
    n, report := 0, messages[0];
    CalmStart(messages, interval, timeout);
    while true
      invariant report == Wake(messages[0], interval, n) && Calm(messages, interval, timeout, n)
      invariant Within(messages, interval, timeout, report, interval + timeout)
      decreases messages[last] + interval + timeout - report
    {
      n, report := n + 1, report + interval;
      if report - Latest(messages, report) > interval + timeout {
        LatestIsLast(messages, report);
        CalmIsHeard(messages, interval, timeout, n - 1);
        WithinIs(messages, interval, timeout, report, 2 * interval + timeout);
        return;
      }
      CalmWake(messages, interval, timeout, report);
      CalmNext(messages, interval, timeout, n);
    }
  }

  lemma CalmNext(messages: seq<int>, interval: int, timeout: int, n: nat)
    requires messages != [] && interval > 0 && n > 0 && Calm(messages, interval, timeout, n - 1)
    requires !Overdue(messages, interval, timeout, Wake(messages[0], interval, n))
    ensures Calm(messages, interval, timeout, n)
  {
  }
}
