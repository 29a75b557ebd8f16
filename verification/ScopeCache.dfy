/** The BFF's in-process cache of the areas a user may see, keyed by user, role and sorted jurisdiction. */
module ScopeCaching {
  import opened Wrappers
  import opened Sorting

  /// ## Keys

  datatype Key = Key(user: string, role: string, jurisdiction: seq<string>)

  function CacheKey(user: string, role: string, jurisdiction: seq<string>): Key {
    Key(user, role, Sort(jurisdiction, AtMost))
  }

  /** Keys collide exactly when user and role agree and the jurisdictions are permutations of each other. */
  lemma KeysCollideIff(u1: string, r1: string, j1: seq<string>, u2: string, r2: string, j2: seq<string>)
    ensures CacheKey(u1, r1, j1) == CacheKey(u2, r2, j2) <==> u1 == u2 && r1 == r2 && multiset(j1) == multiset(j2)
  {
    AtMostIsTotal();
    SortSorts(j1, AtMost);
    SortSorts(j2, AtMost);
    if multiset(j1) == multiset(j2) {
      SortedIsUnique(Sort(j1, AtMost), Sort(j2, AtMost), AtMost);
    }
  }

  /// ## Resolution

  /** Which city each area is in, and which region each city. */
  datatype Hierarchy = Hierarchy(cityOf: map<string, string>, regionOf: map<string, string>)

  function Resolve(role: string, jurisdiction: seq<string>, h: Hierarchy): set<string> {
    if role == "area_manager" then
      set area | area in jurisdiction
    else if role == "city_manager" then
      set area | area in h.cityOf && h.cityOf[area] in jurisdiction
    else if role == "regional_manager" then
      set area | area in h.cityOf && h.cityOf[area] in h.regionOf && h.regionOf[h.cityOf[area]] in jurisdiction
    else
      {}
  }

  lemma ResolveIgnoresOrder(role: string, a: seq<string>, b: seq<string>, h: Hierarchy)
    requires multiset(a) == multiset(b)
    ensures Resolve(role, a, h) == Resolve(role, b, h)
  {
    assert forall x :: x in a <==> x in multiset(a);
    assert forall x :: x in b <==> x in multiset(b);
  }

  /** Whether an area is in the scope of one name of the jurisdiction: an area, a city or a region, as the role says. */
  ghost predicate Covers(role: string, name: string, h: Hierarchy, area: string) {
    || (role == "area_manager" && area == name)
    || (role == "city_manager" && area in h.cityOf && h.cityOf[area] == name)
    || (role == "regional_manager" && exists city ::
          area in h.cityOf && h.cityOf[area] == city && city in h.regionOf && h.regionOf[city] == name)
  }

  /** The scope is what the names of the jurisdiction cover, no more and no less. */
  lemma ScopeIsWhatNamesCover(role: string, jurisdiction: seq<string>, h: Hierarchy, area: string)
    ensures area in Resolve(role, jurisdiction, h) <==> exists name <- jurisdiction :: Covers(role, name, h, area)
  {
  }

  /** Jurisdictions add up, and no jurisdiction means no area. */
  lemma ScopesAddUp(role: string, a: seq<string>, b: seq<string>, h: Hierarchy)
    ensures Resolve(role, a + b, h) == Resolve(role, a, h) + Resolve(role, b, h)
    ensures Resolve(role, [], h) == {}
  {
  }

  /** City scopes partition the areas that have a city, so managers of different cities share none. */
  lemma CitiesPartitionAreas(h: Hierarchy, area: string, city: string, other: string)
    ensures area in Resolve("city_manager", [city], h) <==> area in h.cityOf && h.cityOf[area] == city
    ensures city != other ==> Resolve("city_manager", [city], h) !! Resolve("city_manager", [other], h)
  {
  }

  /** A regional scope is the union of the scopes of the cities of the region. */
  lemma RegionIsItsCities(h: Hierarchy, region: string, cities: seq<string>)
    requires forall city :: city in cities <==> city in h.regionOf && h.regionOf[city] == region
    ensures Resolve("regional_manager", [region], h) == Resolve("city_manager", cities, h)
  {
  }

  /** An area manager sees just the areas listed, whatever the hierarchy, and an unknown role sees nothing. */
  lemma OtherRoles(role: string, jurisdiction: seq<string>, h: Hierarchy, area: string)
    ensures area in Resolve("area_manager", jurisdiction, h) <==> area in jurisdiction
    ensures role != "area_manager" && role != "city_manager" && role != "regional_manager" ==>
              Resolve(role, jurisdiction, h) == {}
  {
  }

  /// ## The cache

  /** `sampled` is a history variable: the instant at which the query saw the hierarchy. */
  datatype Entry = Entry(areas: set<string>, expiresAt: real, sampled: real)
  type Store = map<Key, Entry>

  datatype Config = Config(ttl: real, latency: real, hierarchy: real -> Hierarchy)

  /** The two cache operations. Requests of many users interleave between them. */
  datatype Op =
    | Get(user: string, role: string, jurisdiction: seq<string>, now: real)
    | Set(user: string, role: string, jurisdiction: seq<string>, now: real, sampled: real)

  function Found(store: Store, op: Op): Option<set<string>> {
    var key := CacheKey(op.user, op.role, op.jurisdiction);
    if key in store && !(op.now > store[key].expiresAt) then Some(store[key].areas) else None
  }

  function After(c: Config, store: Store, op: Op): Store {
    var key := CacheKey(op.user, op.role, op.jurisdiction);
    match op
    case Get(_, _, _, now) => if key in store && now > store[key].expiresAt then store - {key} else store
    case Set(_, role, jurisdiction, now, sampled) =>
      store[key := Entry(Resolve(role, jurisdiction, c.hierarchy(sampled)), now + c.ttl, sampled)]
  }

  function Run(c: Config, ops: seq<Op>): Store {
    if ops == [] then map[] else After(c, Run(c, ops[..|ops| - 1]), ops[|ops| - 1])
  }

  class ScopeCache {
    const ttl: real
    var store: Store

    constructor (ttl: real)
      ensures this.ttl == ttl && store == map[]
    {
      this.ttl := ttl;
      store := map[];
    }

    method GetCachedScope(user: string, role: string, jurisdiction: seq<string>, now: real) returns (areas: Option<set<string>>)
      modifies this
      ensures areas == Found(old(store), Get(user, role, jurisdiction, now))
      ensures forall c :: store == After(c, old(store), Get(user, role, jurisdiction, now))
    {
      var key := CacheKey(user, role, jurisdiction);
      if key !in store {
        return None;
      }
      var entry := store[key];
      if now > entry.expiresAt {
        store := store - {key};
        return None;
      }
      return Some(entry.areas);
    }

    method SetCachedScope(
      user: string, role: string, jurisdiction: seq<string>, areas: set<string>, now: real, sampled: real)
      modifies this
      ensures forall c: Config | c.ttl == ttl && areas == Resolve(role, jurisdiction, c.hierarchy(sampled)) ::
                store == After(c, old(store), Set(user, role, jurisdiction, now, sampled))
    {
      store := store[CacheKey(user, role, jurisdiction) := Entry(areas, now + ttl, sampled)];
    }
  }

  /** Time does not run backwards, and a query's answer is stored at most `latency` after it was sampled. */
  ghost predicate Timely(c: Config, ops: seq<Op>) {
    && (forall i, j | 0 <= i < j < |ops| :: ops[i].now <= ops[j].now)
    && (forall op <- ops :: op.Set? ==> op.sampled <= op.now <= op.sampled + c.latency)
  }

  ghost predicate FreshEntry(c: Config, key: Key, e: Entry, now: real) {
    && e.areas == Resolve(key.role, key.jurisdiction, c.hierarchy(e.sampled))
    && e.sampled <= now && e.expiresAt <= e.sampled + c.ttl + c.latency
  }

  lemma {:induction false} EntriesAreFresh(c: Config, ops: seq<Op>, key: Key)
    requires Timely(c, ops) && ops != []
    ensures key in Run(c, ops) ==> FreshEntry(c, key, Run(c, ops)[key], ops[|ops| - 1].now)
    decreases |ops|
  {
    var front, last := ops[..|ops| - 1], ops[|ops| - 1];
    if front != [] {
      EntriesAreFresh(c, front, key);
      assert ops[|ops| - 2].now <= last.now;
    }
    if last.Set? && key == CacheKey(last.user, last.role, last.jurisdiction) {
      assert last in ops;
      AtMostIsTotal();
      SortSorts(last.jurisdiction, AtMost);
      ResolveIgnoresOrder(last.role, last.jurisdiction, key.jurisdiction, c.hierarchy(last.sampled));
    }
  }

  /**
   Every cached answer, for whatever order of the jurisdiction, is what resolving that jurisdiction now would
   have given against some state of the hierarchy at most ttl + latency old.
   */
  lemma CachedScopeIsRecent(c: Config, ops: seq<Op>, get: Op)
    requires Timely(c, ops) && (ops != [] ==> ops[|ops| - 1].now <= get.now)
    requires get.Get? && Found(Run(c, ops), get).Some?
    ensures exists sampled: real ::
              && get.now - c.ttl - c.latency <= sampled <= get.now
              && forall area :: area in Found(Run(c, ops), get).value
                   <==> exists name <- get.jurisdiction :: Covers(get.role, name, c.hierarchy(sampled), area)
  {
    var key := CacheKey(get.user, get.role, get.jurisdiction);
    EntriesAreFresh(c, ops, key);
    var e := Run(c, ops)[key];
    AtMostIsTotal();
    SortSorts(get.jurisdiction, AtMost);
    ResolveIgnoresOrder(get.role, get.jurisdiction, key.jurisdiction, c.hierarchy(e.sampled));
    assert Found(Run(c, ops), get) == Some(Resolve(get.role, get.jurisdiction, c.hierarchy(e.sampled)));
    forall area
      ensures area in Found(Run(c, ops), get).value
              <==> exists name <- get.jurisdiction :: Covers(get.role, name, c.hierarchy(e.sampled), area)
    {
      ScopeIsWhatNamesCover(get.role, get.jurisdiction, c.hierarchy(e.sampled), area);
    }
  }

  /** The operation resolves the scope of this key anew. */
  predicate Renews(op: Op, key: Key) {
    op.Set? && CacheKey(op.user, op.role, op.jurisdiction) == key
  }

  /**
   A stored scope answers every request of the same user, role and jurisdiction, in any order, up to and including
   its expiry time, and none later, whatever other requests do and until it is resolved anew.
   */
  lemma {:induction false} ScopeAnswersUntilExpiry(c: Config, before: seq<Op>, stored: Op, others: seq<Op>, get: Op)
    requires stored.Set? && get.Get?
    requires CacheKey(get.user, get.role, get.jurisdiction) == CacheKey(stored.user, stored.role, stored.jurisdiction)
    requires forall op <- others :: !Renews(op, CacheKey(get.user, get.role, get.jurisdiction)) && op.now <= get.now
    ensures Found(Run(c, before + [stored] + others), get).Some? <==> get.now <= stored.now + c.ttl
    ensures get.now <= stored.now + c.ttl ==>
              Found(Run(c, before + [stored] + others), get)
              == Some(Resolve(stored.role, stored.jurisdiction, c.hierarchy(stored.sampled)))
    decreases |others|
  {
    if others == [] {
      assert before + [stored] + others == before + [stored];
      assert (before + [stored])[..|before|] == before;
    } else {
      assert (before + [stored] + others)[..|before| + |others|] == before + [stored] + others[..|others| - 1];
      ScopeAnswersUntilExpiry(c, before, stored, others[..|others| - 1], get);
    }
  }
}
