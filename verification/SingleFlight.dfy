/**
 * Single-flight runtime discovery. Each method is one section under the mutex, or one step outside it; an interleaving
 * of callers, cancellations and completions is a sequence of calls, so what every method keeps holds in all of them.
 */
module SingleFlight {

  type Caller = nat
  type Kind = string

  datatype Support = Supported | NotInstalled | TimedOut | OtherState

  datatype Discovery = Discovery(state: Support, detail: string)

  /** What the discoverer returned: a discovery, or an error. */
  datatype Found = Found(discovery: Discovery, failed: bool)

  datatype Cached = Cached(result: Discovery, expiresAt: nat)

  datatype Answer = Unknown | ContextError | FromCache(result: Discovery) | FromFlight(found: Found) | Waits

  class Flight {
    const kind: Kind
    var waiters: int
    var done: bool
    var cancelled: bool
    var found: Found

    constructor (kind: Kind)
      ensures this.kind == kind && waiters == 1 && !done && !cancelled
    {
      this.kind := kind;
      waiters, done, cancelled, found := 1, false, false, Found(Discovery(OtherState, ""), false);
    }
  }

  const CACHE_TTL: nat := 5

  ghost function WaitersOf(waiting: map<Caller, Flight>, f: Flight): set<Caller> {
    set c | c in waiting && waiting[c] == f
  }

  lemma JoinCounts(waiting: map<Caller, Flight>, c: Caller, f: Flight, all: set<Flight>)
    requires c !in waiting
    ensures forall g :: g in all ==>
              |WaitersOf(waiting[c := f], g)| == |WaitersOf(waiting, g)| + if g == f then 1 else 0
  {
    forall g | g in all ensures |WaitersOf(waiting[c := f], g)| == |WaitersOf(waiting, g)| + if g == f then 1 else 0 {
      assert WaitersOf(waiting[c := f], g) == WaitersOf(waiting, g) + if g == f then {c} else {};
    }
  }

  lemma LeaveCounts(waiting: map<Caller, Flight>, c: Caller, all: set<Flight>)
    requires c in waiting
    ensures forall g :: g in all ==>
              |WaitersOf(waiting - {c}, g)| == |WaitersOf(waiting, g)| - if g == waiting[c] then 1 else 0
  {
    forall g | g in all
      ensures |WaitersOf(waiting - {c}, g)| == |WaitersOf(waiting, g)| - if g == waiting[c] then 1 else 0
    {
      assert WaitersOf(waiting, g) == WaitersOf(waiting - {c}, g) + if g == waiting[c] then {c} else {};
    }
  }

  lemma NobodyWaits(waiting: map<Caller, Flight>, f: Flight)
    requires forall c :: c in waiting ==> waiting[c] != f
    ensures WaitersOf(waiting, f) == {}
  {
  }

  lemma SomebodyWaits(waiting: map<Caller, Flight>, c: Caller)
    requires c in waiting
    ensures |WaitersOf(waiting, waiting[c])| > 0
  {
    assert c in WaitersOf(waiting, waiting[c]);
  }

  /** A finished flight: its result and the waiters it had when it finished. */
  datatype End = End(found: Found, waiters: int)

  /** Every cached value is the error-free SUPPORTED result of a finished flight of its kind that still had a waiter. */
  ghost predicate CacheOk(cache: map<Kind, Cached>, source: map<Kind, Flight>, ended: map<Flight, End>) {
    forall k :: k in cache ==>
      && k in source && source[k] in ended && source[k].kind == k
      && ended[source[k]].waiters > 0 && ended[source[k]].found == Found(cache[k].result, false)
      && cache[k].result.state == Supported
  }

  lemma EndingKeepsCache(cache: map<Kind, Cached>, source: map<Kind, Flight>, ended: map<Flight, End>, f: Flight,
          end: End)
    requires CacheOk(cache, source, ended) && f !in ended
    ensures CacheOk(cache, source, ended[f := end])
  {
  }

  lemma StoringKeepsCache(cache: map<Kind, Cached>, source: map<Kind, Flight>, ended: map<Flight, End>, f: Flight,
          result: Discovery, at: nat)
    requires CacheOk(cache, source, ended) && f in ended && ended[f].waiters > 0
    requires ended[f].found == Found(result, false)
    requires result.state == Supported
    ensures CacheOk(cache[f.kind := Cached(result, at)], source[f.kind := f], ended)
  {
  }

  /** What one flight may look like, finished or not. */
  ghost predicate FlightOk(f: Flight, waiting: map<Caller, Flight>, flights: map<Kind, Flight>, ended: map<Flight, End>)
    reads f
  {
    && (f.done <==> f in ended)
    && (f.done ==> ended[f] == End(f.found, f.waiters))
    && (!f.done ==>
          && f.waiters == |WaitersOf(waiting, f)|
          && (f.cancelled <==> f.waiters == 0)
          && (f.waiters > 0 ==> f.kind in flights && flights[f.kind] == f))
  }

  lemma DoneIsOk(f: Flight, waiting: map<Caller, Flight>, flights: map<Kind, Flight>, ended: map<Flight, End>)
    requires f.done && f in ended && ended[f] == End(f.found, f.waiters)
    ensures FlightOk(f, waiting, flights, ended)
  {
  }

  lemma FreshIsOk(f: Flight, waiting: map<Caller, Flight>, flights: map<Kind, Flight>, ended: map<Flight, End>)
    requires !f.done && f !in ended && f.waiters == 1 == |WaitersOf(waiting, f)| && !f.cancelled
    requires f.kind in flights && flights[f.kind] == f
    ensures FlightOk(f, waiting, flights, ended)
  {
  }

  /** A flight nobody touched is as it was when its own waiters and its own entry are. */
  lemma FlightStays(f: Flight, waiting: map<Caller, Flight>, flights: map<Kind, Flight>, ended: map<Flight, End>,
                    waiting': map<Caller, Flight>, flights': map<Kind, Flight>, ended': map<Flight, End>)
    requires FlightOk(f, waiting, flights, ended)
    requires |WaitersOf(waiting', f)| == |WaitersOf(waiting, f)|
    requires (f in ended' <==> f in ended) && (f in ended ==> ended'[f] == ended[f])
    requires f.kind in flights && flights[f.kind] == f && f.waiters > 0 && !f.done ==>
              f.kind in flights' && flights'[f.kind] == f
    ensures FlightOk(f, waiting', flights', ended')
  {
  }

  class RuntimeDiscovery {
    const registry: set<Kind>
    var flights: map<Kind, Flight>
    var cache: map<Kind, Cached>
    /**
     * Every flight ever started, how each one ended, the flight each waiting caller waits for, the flight behind each
     * cached value.
     */
    ghost var all: set<Flight>
    ghost var ended: map<Flight, End>
    ghost var waiting: map<Caller, Flight>
    ghost var source: map<Kind, Flight>

    ghost predicate Valid()
      reads this, all
    {
      && (forall k :: k in flights ==> flights[k] in all && flights[k].kind == k && !flights[k].done)
      && (forall c :: c in waiting ==> waiting[c] in all)
      && ended.Keys <= all
      && (forall f :: f in all ==> FlightOk(f, waiting, flights, ended))
      && CacheOk(cache, source, ended)
    }

    constructor (registry: set<Kind>)
      ensures Valid() && cache == map[] && flights == map[] && waiting == map[]
    {
      this.registry := registry;
      flights, cache, all, ended, waiting, source := map[], map[], {}, map[], map[], map[];
    }

    /** Nobody else's call changes a caller, and a flight without waiters never gets one again. */
    twostate predicate OthersUndisturbed(c: Caller)
      reads this, all
    {
      && old(all) <= all
      && (forall o :: o != c ==> (o in waiting <==> o in old(waiting)))
      && (forall o :: o != c && o in waiting ==> waiting[o] == old(waiting[o]))
      && (forall f :: f in old(all) && old(!f.done && f.waiters == 0) ==> f.waiters == 0)
      && (forall f :: f in old(all) && old(f.done) ==> f.done && f.found == old(f.found) && f.waiters == old(f.waiters))
    }

    // -------------------------------------------------------------- the sections

    /** Detect up to the wait: the cache, a flight somebody still waits for, or a flight of its own. */
    method Detect(ghost c: Caller, kind: Kind, live: bool, now: nat)
      returns (answer: Answer, joined: Flight?, started: bool)
      requires Valid() && c !in waiting
      modifies this`waiting, this`flights, this`all, all`waiters
      ensures Valid() && OthersUndisturbed(c)
      ensures answer.Unknown? <==> kind !in registry
      ensures answer.ContextError? <==> kind in registry && !live
      ensures answer.FromCache? <==> kind in registry && live && kind in cache && now < cache[kind].expiresAt
      ensures answer.FromCache? ==> answer.result == cache[kind].result
      ensures answer.Waits? <==> c in waiting
      ensures c in waiting ==>
                waiting[c].kind == kind && !waiting[c].cancelled && kind in flights && flights[kind] == waiting[c]
      ensures c in waiting ==> joined == waiting[c]
      ensures started <==> c in waiting && waiting[c] !in old(all)
    {
      joined, started := null, false;
      if kind !in registry {
        return Unknown, null, false;
      }
      if !live {
        return ContextError, null, false;
      }
      if kind in cache && now < cache[kind].expiresAt {
        return FromCache(cache[kind].result), null, false;
      }
      answer := Waits;
      if kind in flights && flights[kind].waiters > 0 {
        joined := flights[kind];
        Join(c, joined);
      } else {
        joined := Start(c, kind);
        started := true;
      }
    }

    method Join(ghost c: Caller, flight: Flight)
      requires Valid() && c !in waiting && flight in all && !flight.done && flight.waiters > 0
      modifies this`waiting, flight`waiters
      ensures Valid() && waiting == old(waiting)[c := flight] && flight.waiters == old(flight.waiters) + 1
    {
      hide WaitersOf, CacheOk;
      JoinCounts(waiting, c, flight, all);
      flight.waiters := flight.waiters + 1;
      waiting := waiting[c := flight];
    }

    /** A new flight takes the place of one that everybody has left. */
    method Start(ghost c: Caller, kind: Kind) returns (flight: Flight)
      requires Valid() && c !in waiting && (kind in flights ==> flights[kind].waiters == 0)
      modifies this`waiting, this`flights, this`all
      ensures Valid() && fresh(flight) && flight.kind == kind && !flight.done && !flight.cancelled
      ensures waiting == old(waiting)[c := flight] && flights == old(flights)[kind := flight]
      ensures all == old(all) + {flight}
    {
      hide WaitersOf, CacheOk, FlightOk;
      flight := new Flight(kind);
      NobodyWaits(waiting, flight);
      JoinCounts(waiting, c, flight, all + {flight});
      flights := flights[kind := flight];
      all := all + {flight};
      waiting := waiting[c := flight];
      FreshIsOk(flight, waiting, flights, ended);
      forall g | g in all && g != flight ensures FlightOk(g, waiting, flights, ended) {
        FlightStays(g, old(waiting), old(flights), ended, waiting, flights, ended);
      }
    }

    /** A caller whose flight is done takes its result. */
    method Receive(ghost c: Caller, flight: Flight) returns (answer: Answer)
      requires Valid() && c in waiting && waiting[c] == flight && flight.done
      modifies this`waiting
      ensures Valid() && OthersUndisturbed(c) && c !in waiting
      ensures answer == FromFlight(flight.found)
    {
      hide WaitersOf, CacheOk;
      LeaveCounts(waiting, c, all);
      answer := FromFlight(flight.found);
      waiting := waiting - {c};
    }

    /**
     * A caller whose own context ended: it takes a result that is there, or leaves; the last one out cancels the
     * flight.
     */
    method GiveUp(ghost c: Caller, flight: Flight) returns (answer: Answer)
      requires Valid() && c in waiting && waiting[c] == flight
      modifies this`waiting, flight`waiters, flight`cancelled
      ensures Valid() && OthersUndisturbed(c) && c !in waiting
      ensures answer == if flight.done then FromFlight(flight.found) else ContextError
      ensures flight.cancelled && !old(flight.cancelled) ==> !flight.done && forall o :: o in waiting ==>
                waiting[o] != flight
    {
      hide FlightOk, WaitersOf, CacheOk;
      if flight.done {
        answer := Receive(c, flight);
      } else {
        Leave(c, flight);
        answer := ContextError;
      }
    }

    method Leave(ghost c: Caller, flight: Flight)
      requires Valid() && c in waiting && waiting[c] == flight && !flight.done
      modifies this`waiting, flight`waiters, flight`cancelled
      ensures Valid() && waiting == old(waiting) - {c}
      ensures old(flight.waiters) > 0
      ensures flight.cancelled && !old(flight.cancelled) ==> forall o :: o in waiting ==> waiting[o] != flight
    {
      hide WaitersOf, CacheOk;
      SomebodyWaits(waiting, c);
      LeaveCounts(waiting, c, all);
      waiting := waiting - {c};
      flight.waiters := flight.waiters - 1;
      if flight.waiters == 0 {
        flight.cancelled := true;
        forall o | o in waiting ensures waiting[o] != flight {
          SomebodyWaits(waiting, o);
        }
      }
      forall g | g in all && g != flight ensures FlightOk(g, waiting, flights, ended) {
        FlightStays(g, old(waiting), flights, ended, waiting, flights, ended);
      }
    }

    /**
     * The end of runFlight: the result is stored, the flight leaves the map if it is still the one there, and is done.
     */
    method Complete(f: Flight, found: Found, now: nat)
      requires Valid() && f in all && !f.done
      modifies this`flights, this`cache, this`ended, this`source, f`found, f`done
      ensures Valid() && f.done && f.found == found
      ensures f.kind in old(flights) && old(flights)[f.kind] == f ==> flights == old(flights) - {f.kind}
      ensures !(f.kind in old(flights) && old(flights)[f.kind] == f) ==> flights == old(flights) && cache == old(cache)
      ensures cache == if old(f.waiters) > 0 && !found.failed && found.discovery.state == Supported
                       then old(cache)[f.kind := Cached(found.discovery, now + CACHE_TTL)] else old(cache)
    {
      hide FlightOk, WaitersOf, CacheOk;
      FlightAt(f);
      var current := f.kind in flights && flights[f.kind] == f;
      Finish(f, found);
      if current && f.waiters > 0 && !found.failed && found.discovery.state == Supported {
        StoringKeepsCache(cache, source, ended, f, found.discovery, now + CACHE_TTL);
        cache := cache[f.kind := Cached(found.discovery, now + CACHE_TTL)];
        source := source[f.kind := f];
      }
    }

    lemma FlightAt(f: Flight)
      requires Valid() && f in all && !f.done
      ensures f !in ended && (f.waiters > 0 ==> f.kind in flights && flights[f.kind] == f)
    {
      assert FlightOk(f, waiting, flights, ended);
    }

    method Finish(f: Flight, found: Found)
      requires Valid() && f in all && !f.done
      modifies this`flights, this`ended, f`found, f`done
      ensures Valid() && f.done && f.found == found && f in ended && ended[f] == End(found, f.waiters)
      ensures flights ==
                if f.kind in old(flights) && old(flights)[f.kind] == f then old(flights) - {f.kind} else old(flights)
    {
      hide FlightOk, WaitersOf, CacheOk;
      FlightAt(f);
      EndingKeepsCache(cache, source, ended, f, End(found, f.waiters));
      f.found := found;
      if f.kind in flights && flights[f.kind] == f {
        flights := flights - {f.kind};
      }
      f.done := true;
      ended := ended[f := End(found, f.waiters)];
      DoneIsOk(f, waiting, flights, ended);
      forall g | g in all && g != f ensures FlightOk(g, waiting, flights, ended) {
        FlightStays(g, waiting, old(flights), old(ended), waiting, flights, ended);
      }
    }

    /** After the mutex: the context of a finished flight is released. */
    method Release(f: Flight)
      requires Valid() && f in all && f.done
      modifies f`cancelled
      ensures Valid()
    {
      f.cancelled := true;
    }
  }

  /**
   * Isolation: a caller still waiting has a flight that nobody has cancelled, that counts it, and that new callers
   * join.
   */
  lemma LiveCallerIsIsolated(d: RuntimeDiscovery, c: Caller)
    requires d.Valid() && c in d.waiting && !d.waiting[c].done
    ensures var f := d.waiting[c];
            !f.cancelled && f.waiters > 0 && f.kind in d.flights && d.flights[f.kind] == f
  {
    SomebodyWaits(d.waiting, c);
  }

  /** A flight is cancelled only when nobody waits for it or it is done, and exactly then if it is not done. */
  lemma CancelledMeansAbandoned(d: RuntimeDiscovery, f: Flight)
    requires d.Valid() && f in d.all && !f.done
    ensures f.cancelled <==> forall c :: c in d.waiting ==> d.waiting[c] != f
  {
    if forall c :: c in d.waiting ==> d.waiting[c] != f {
      NobodyWaits(d.waiting, f);
    } else {
      var c :| c in d.waiting && d.waiting[c] == f;
      SomebodyWaits(d.waiting, c);
    }
  }

  /** At most one unfinished flight of a kind has waiters. */
  lemma OneFlightPerKind(d: RuntimeDiscovery, f: Flight, g: Flight)
    requires d.Valid() && f in d.all && g in d.all && !f.done && !g.done && f.kind == g.kind
    requires f.waiters > 0 && g.waiters > 0
    ensures f == g
  {
    assert FlightOk(f, d.waiting, d.flights, d.ended) && FlightOk(g, d.waiting, d.flights, d.ended);
  }
}
