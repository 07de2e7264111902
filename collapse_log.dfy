/** The collapse log (`collapses_`, a deque of timestamps, oldest first): appended at the back
    when a collapse is observed (lib/MPPTLib/solar.cpp:416) and pruned at the front once per
    adjustment (lines 441-444). Its length is the collapse count. */
module CollapseLog {
  import opened Time

  const MaxAge: int := 5 * 60000

  /** An entry is stale when it is strictly older than five minutes. */
  predicate Stale(entry: Millis, now: Millis)
  {
    Elapsed(now, entry) > MaxAge
  }

  /** One pruning pass: drop the front entry if it is stale, and nothing else. */
  function Prune(log: seq<Millis>, now: Millis): seq<Millis>
  {
    if |log| > 0 && Stale(log[0], now) then log[1..] else log
  }

  /** A pass removes at most one entry, the front one, exactly when it is stale; the order of
      the rest is kept. */
  lemma PruneRemovesStaleFront(log: seq<Millis>, now: Millis)
    ensures var r := Prune(log, now);
      && (r == log || (|log| > 0 && r == log[1..]))
      && (|r| < |log| <==> |log| > 0 && Stale(log[0], now))
      && |log| - 1 <= |r| <= |log|
  {
  }

  /** An entry exactly five minutes old stays; 299999 ms stays; 300001 ms goes. */
  lemma PruneBoundary(t: Millis, rest: seq<Millis>)
    ensures Prune([t] + rest, Add(t, MaxAge)) == [t] + rest
    ensures Prune([t] + rest, Add(t, MaxAge - 1)) == [t] + rest
    ensures Prune([t] + rest, Add(t, MaxAge + 1)) == rest
  {
    ElapsedAfterAdd(t, MaxAge);
    ElapsedAfterAdd(t, MaxAge - 1);
    ElapsedAfterAdd(t, MaxAge + 1);
    assert ([t] + rest)[1..] == rest;
  }

  /** Recording a collapse appends it at the back. */
  function Record(log: seq<Millis>, now: Millis): (r: seq<Millis>)
    ensures |r| == |log| + 1 && r[..|log|] == log && r[|log|] == now
  {
    log + [now]
  }
}
