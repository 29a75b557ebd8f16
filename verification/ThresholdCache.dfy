/** The rule engine's cache of area thresholds, fetched from the geo service. */
module ThresholdCaching {
  import opened Wrappers
  import opened ThresholdEvaluator

  /** `sampled` is a history variable: the instant at which the geo service answered; `ok` whether it did. */
  datatype Entry = Entry(thresholds: seq<AreaThreshold>, expiresAt: real, sampled: real, ok: bool)
  type Store = map<string, Entry>

  /** The rules in force at each instant. */
  datatype Config = Config(ttl: real, latency: real, rules: (real, string) -> seq<AreaThreshold>)

  datatype Op =
    | Lookup(area: string, now: real)
    | Fetched(area: string, now: real, sampled: real, ok: bool)
    | Invalidate(area: string, now: real)

  /** A failed fetch reads as "no thresholds". */
  function Answer(c: Config, op: Op): seq<AreaThreshold>
    requires op.Fetched?
  {
    if op.ok then c.rules(op.sampled, op.area) else []
  }

  function Live(store: Store, area: string, now: real): Option<Entry> {
    if area in store && now < store[area].expiresAt then Some(store[area]) else None
  }

  function After(c: Config, store: Store, op: Op): Store {
    match op
    case Lookup(_, _) => store
    case Fetched(area, now, sampled, ok) => store[area := Entry(Answer(c, op), now + c.ttl, sampled, ok)]
    case Invalidate(area, _) => store - {area}
  }

  function Run(c: Config, ops: seq<Op>): Store {
    if ops == [] then map[] else After(c, Run(c, ops[..|ops| - 1]), ops[|ops| - 1])
  }

  class ThresholdCache {
    const ttl: real
    var store: Store

    constructor (ttl: real)
      ensures this.ttl == ttl && store == map[]
    {
      this.ttl := ttl;
      store := map[];
    }

    /** `get_thresholds` up to the request, which is only made when there is no live entry. */
    method LookupThresholds(area: string, now: real) returns (hit: Option<seq<AreaThreshold>>)
      ensures hit == match Live(store, area, now) { case None => None case Some(e) => Some(e.thresholds) }
    {
      if area in store && now < store[area].expiresAt {
        return Some(store[area].thresholds);
      }
      return None;
    }

    /** `get_thresholds` after the request: an HTTP or connection error yields, and caches, the empty list. */
    method StoreFetched(area: string, now: real, sampled: real, response: Option<seq<AreaThreshold>>, ghost c: Config)
      returns (thresholds: seq<AreaThreshold>)
      requires c.ttl == ttl && (response.Some? ==> response.value == c.rules(sampled, area))
      modifies this
      ensures thresholds == Answer(c, Fetched(area, now, sampled, response.Some?))
      ensures store == After(c, old(store), Fetched(area, now, sampled, response.Some?))
    {
      thresholds := if response.Some? then response.value else [];
      store := store[area := Entry(thresholds, now + ttl, sampled, response.Some?)];
    }

    method InvalidateArea(area: string)
      modifies this
      ensures forall c, now :: store == After(c, old(store), Invalidate(area, now))
    {
      store := store - {area};
    }
  }

  ghost predicate Timely(c: Config, ops: seq<Op>) {
    && (forall i, j | 0 <= i < j < |ops| :: ops[i].now <= ops[j].now)
    && (forall op <- ops :: op.Fetched? ==> op.sampled <= op.now <= op.sampled + c.latency)
  }

  ghost predicate FreshEntry(c: Config, area: string, e: Entry, now: real) {
    && e.thresholds == (if e.ok then c.rules(e.sampled, area) else [])
    && e.sampled <= now && e.expiresAt <= e.sampled + c.ttl + c.latency
  }

  lemma {:induction false} EntriesAreFresh(c: Config, ops: seq<Op>, area: string)
    requires Timely(c, ops) && ops != []
    ensures area in Run(c, ops) ==> FreshEntry(c, area, Run(c, ops)[area], ops[|ops| - 1].now)
    decreases |ops|
  {
    var front, last := ops[..|ops| - 1], ops[|ops| - 1];
    assert last in ops;
    if front != [] {
      EntriesAreFresh(c, front, area);
      assert ops[|ops| - 2].now <= last.now;
    }
  }

  /**
   Every cached answer is the rules in force less than ttl + latency earlier, so a rule change is seen that
   late at most; or it is the empty list left by a failed request no older than that.
   */
  lemma CachedThresholdsAreRecent(c: Config, ops: seq<Op>, lookup: Op)
    requires Timely(c, ops) && (ops != [] ==> ops[|ops| - 1].now <= lookup.now)
    requires lookup.Lookup? && Live(Run(c, ops), lookup.area, lookup.now).Some?
    ensures var e := Live(Run(c, ops), lookup.area, lookup.now).value;
            && lookup.now - c.ttl - c.latency < e.sampled <= lookup.now
            && e.thresholds == if e.ok then c.rules(e.sampled, lookup.area) else []
  {
    EntriesAreFresh(c, ops, lookup.area);
  }

  /** Until the next fetch or invalidation of its area, a response, or its failure, answers exactly until the ttl is over. */
  lemma {:induction false} ResponseAnswersUntilExpiry(
    c: Config, before: seq<Op>, fetched: Op, others: seq<Op>, now: real)
    requires fetched.Fetched? && forall op <- others :: op.Lookup? || op.area != fetched.area
    ensures var live := Live(Run(c, before + [fetched] + others), fetched.area, now);
            && (live.Some? <==> now < fetched.now + c.ttl)
            && (live.Some? ==>
                  live.value.thresholds == if fetched.ok then c.rules(fetched.sampled, fetched.area) else [])
    decreases |others|
  {
    if others == [] {
      assert before + [fetched] + others == before + [fetched];
      assert (before + [fetched])[..|before|] == before;
    } else {
      assert (before + [fetched] + others)[..|before| + |others|] == before + [fetched] + others[..|others| - 1];
      ResponseAnswersUntilExpiry(c, before, fetched, others[..|others| - 1], now);
    }
  }

  /**
   One failed request switches the area's threshold checks off: until the next fetch or invalidation of the
   area, whatever happens to other areas, lookups answer "no thresholds" exactly until the ttl is over.
   */
  lemma FailureSilencesArea(c: Config, before: seq<Op>, failed: Op, others: seq<Op>, now: real)
    requires failed.Fetched? && !failed.ok
    requires forall op <- others :: op.Lookup? || op.area != failed.area
    ensures var live := Live(Run(c, before + [failed] + others), failed.area, now);
            && (live.Some? <==> now < failed.now + c.ttl)
            && (live.Some? ==> live.value.thresholds == [])
  {
    ResponseAnswersUntilExpiry(c, before, failed, others, now);
  }

  /** After an invalidation nothing answers for the area until it is fetched again. */
  lemma {:induction false} InvalidationForcesFetch(c: Config, before: seq<Op>, invalidate: Op, others: seq<Op>, now: real)
    requires invalidate.Invalidate? && forall op <- others :: !op.Fetched? || op.area != invalidate.area
    ensures Live(Run(c, before + [invalidate] + others), invalidate.area, now).None?
    decreases |others|
  {
    if others == [] {
      assert before + [invalidate] + others == before + [invalidate];
      assert (before + [invalidate])[..|before|] == before;
    } else {
      assert (before + [invalidate] + others)[..|before| + |others|] == before + [invalidate] + others[..|others| - 1];
      InvalidationForcesFetch(c, before, invalidate, others[..|others| - 1], now);
    }
  }
}
