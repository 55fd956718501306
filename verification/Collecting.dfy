/** The collector on a disk: what it retains, what it may delete, and the deletions one at a time. */
module Collecting {
  import opened InstallTypes
  import opened World
  import opened Collector
  import opened Store

  /** An injected deletion failure: before deletion number `at`, RemoveAll stops with these files still there. */
  datatype Fault = NoFault | Fault(at: nat, spared: set<string>)

  method LatestPreviousCommitted(disk: Disk, activeGen: string) returns (c: int)
    ensures c == LatestCommitted(disk.txns, activeGen, |disk.txns|)
  {
    c := -1;
    for i := 0 to |disk.txns|
      invariant c == LatestCommitted(disk.txns, activeGen, i)
    {
      var t := disk.txns[i];
      if Superseded(t, activeGen) && (c < 0 || TxnTime(disk.txns[c]) < TxnTime(t)) {
        c := i;
      }
    }
  }

  method LatestFailedProven(disk: Disk) returns (h: Option<Hit>)
    ensures h == LatestHit(disk.Snapshot(), |disk.txns|)
  {
    hide ProvenAt, TreeAt, LatestHitAmong;
    ghost var w := disk.Snapshot();
    h := None;
    for i := 0 to |disk.txns|
      invariant h == LatestHit(w, i)
      invariant h.Some? ==> h.value.owner < |disk.txns|
    {
      var t := disk.txns[i];
      if t.state == State.Failed {
        h := LaterHit(disk, h, Hit(i, StagingAt(t.id)));
        h := LaterHit(disk, h, Hit(i, FailedAt(t.id)));
        h := LaterHit(disk, h, Hit(i, GenerationAt(t.generationId)));
      }
    }
  }

  method LaterHit(disk: Disk, best: Option<Hit>, h: Hit) returns (later: Option<Hit>)
    requires best.Some? ==> best.value.owner < |disk.txns|
    requires h.owner < |disk.txns| && disk.txns[h.owner].state == State.Failed && Owns(disk.txns[h.owner], h.place)
    ensures later == Later(disk.Snapshot(), best, h) && (later == best || later == Some(h))
  {
    var t := disk.txns[h.owner];
    var found := LookAt(disk, h.place);
    if found.Some? && LineageProven(found.value, t)
          && (best.None? || TxnTime(disk.txns[best.value.owner]) < TxnTime(t)) {
      return Some(h);
    }
    later := best;
  }

  method LookAt(disk: Disk, p: Place) returns (found: Option<Tree>)
    ensures found == TreeAt(disk.Snapshot(), p)
  {
    match p
    case StagingAt(id) => found := TreeOf(disk.staging, id);
    case FailedAt(id) => found := TreeOf(disk.failed, id);
    case GenerationAt(g) => found := TreeOf(disk.generations, g);
  }

  ghost predicate InFlightPlace(txns: seq<Txn>, n: nat, p: Place)
    requires n <= |txns|
  {
    exists i :: 0 <= i < n && Nonterminal(txns[i])
          && (p == StagingAt(txns[i].id) || p == GenerationAt(txns[i].generationId))
  }

  method InFlightPlaces(disk: Disk) returns (places: set<Place>)
    ensures forall p :: p in places <==> InFlightPlace(disk.txns, |disk.txns|, p)
  {
    places := {};
    for i := 0 to |disk.txns|
      invariant forall p :: p in places <==> InFlightPlace(disk.txns, i, p)
    {
      if Nonterminal(disk.txns[i]) {
        places := places + {StagingAt(disk.txns[i].id), GenerationAt(disk.txns[i].generationId)};
      }
    }
  }

  /** retentionSet: the places no collection may delete. */
  method RetentionSet(disk: Disk) returns (protected: set<Place>)
    ensures forall p :: p in protected <==> Retained(disk.Snapshot(), p)
  {
    hide ReadActive, LatestHitAmong, LatestAmong, InFlightPlace;
    var active := disk.ReadActivePointer();
    var activeGen := if active.Valid? then active.generationId else "";
    protected := if active.Valid? then {GenerationAt(activeGen)} else {};
    var c := LatestPreviousCommitted(disk, activeGen);
    if 0 <= c < |disk.txns| {
      protected := protected + {GenerationAt(disk.txns[c].generationId)};
    }
    var h := LatestFailedProven(disk);
    if h.Some? {
      protected := protected + {h.value.place};
    }
    var flying := InFlightPlaces(disk);
    forall p ensures p in protected + flying <==> Retained(disk.Snapshot(), p) {
      RetainedCases(disk.Snapshot(), c, h, p);
    }
    protected := protected + flying;
  }

  lemma RetainedCases(w: World, c: int, h: Option<Hit>, p: Place)
    requires c == LatestCommitted(w.txns, ActiveGen(w), |w.txns|) && h == LatestHit(w, |w.txns|)
    ensures Retained(w, p) <==>
              (|| (ReadActive(w).Valid? && p == GenerationAt(ReadActive(w).generationId))
               || (0 <= c < |w.txns| && p == GenerationAt(w.txns[c].generationId))
               || (h.Some? && p == h.value.place)
               || InFlightPlace(w.txns, |w.txns|, p))
  {
    hide ReadActive, LatestHitAmong, Superseded;
  }

  /** gcCandidates: directories whose lineage is proven by the record they are named after. */
  method GcCandidates(disk: Disk) returns (places: set<Place>)
    ensures forall p :: p in places <==> Candidate(disk.Snapshot(), p)
  {
    ghost var w := disk.Snapshot();
    places := {};
    for i := 0 to |disk.txns|
      invariant forall p :: p in places <==> exists j :: 0 <= j < i && ProvenAt(w, w.txns[j], p)
    {
      var t := disk.txns[i];
      ghost var before := places;
      places := AddProven(disk, places, t, StagingAt(t.id));
      places := AddProven(disk, places, t, FailedAt(t.id));
      places := AddProven(disk, places, t, GenerationAt(t.generationId));
      forall p ensures p in places <==> p in before || ProvenAt(w, t, p) { }
    }
  }

  method AddProven(disk: Disk, places: set<Place>, t: Txn, p: Place) returns (more: set<Place>)
    requires Owns(t, p)
    ensures more == if ProvenAt(disk.Snapshot(), t, p) then places + {p} else places
  {
    var found := LookAt(disk, p);
    more := if found.Some? && LineageProven(found.value, t) then places + {p} else places;
  }

  /** Everything but the listed places is as it was. */
  ghost predicate Swept(w: World, gone: set<Place>, w': World) {
    && w' == w.(staging := w'.staging, failed := w'.failed, generations := w'.generations)
    && forall p :: TreeAt(w', p) == if p in gone then None else TreeAt(w, p)
  }

  method RemoveTree(disk: Disk, p: Place, left: Option<Tree>)
    modifies disk`staging, disk`failed, disk`generations
    ensures disk.Snapshot() ==
              old(disk.Snapshot()).(staging := disk.staging, failed := disk.failed, generations := disk.generations)
    ensures forall q :: TreeAt(disk.Snapshot(), q) == if q == p then left else TreeAt(old(disk.Snapshot()), q)
  {
    match p
    case StagingAt(id) => disk.staging := if left.Some? then disk.staging[id := left.value] else disk.staging - {id};
    case FailedAt(id) => disk.failed := if left.Some? then disk.failed[id := left.value] else disk.failed - {id};
    case GenerationAt(g) =>
      disk.generations := if left.Some? then disk.generations[g := left.value] else disk.generations - {g};
  }

  lemma SweptPointer(w: World, gone: set<Place>, w': World)
    requires Swept(w, gone, w')
    requires ReadActive(w).Valid? ==> GenerationAt(ReadActive(w).generationId) !in gone
    ensures ReadActive(w').Valid? ==> ReadActive(w') == ReadActive(w)
  {
    if LoadActive(w).Some? {
      var g := LoadActive(w).value.generationId;
      assert TreeAt(w', GenerationAt(g)) == TreeOf(w'.generations, g);
      assert TreeAt(w, GenerationAt(g)) == TreeOf(w.generations, g);
    }
  }

  lemma SweptAll(w: World, gone: set<Place>, w': World)
    requires Swept(w, gone, w')
    requires forall p :: p in gone <==> Candidate(w, p) && !Retained(w, p)
    ensures w' == Collect(w)
  {
    hide Candidate, LatestHitAmong, Superseded, ReadActive;
    forall id ensures TreeAt(w', StagingAt(id)) == TreeOf(w'.staging, id) { }
    forall id ensures TreeAt(w', FailedAt(id)) == TreeOf(w'.failed, id) { }
    forall g ensures TreeAt(w', GenerationAt(g)) == TreeOf(w'.generations, g) { }
    var c, h := LatestCommitted(w.txns, ActiveGen(w), |w.txns|), LatestHit(w, |w.txns|);
    forall p ensures TreeAt(Collect(w), p) == TreeAt(w', p) {
      CollectedPlaces(w, c, h, p);
    }
    SamePlaces(Collect(w), w');
  }

  lemma SamePlaces(a: World, b: World)
    requires forall p :: TreeAt(a, p) == TreeAt(b, p)
    requires b == a.(staging := b.staging, failed := b.failed, generations := b.generations)
    ensures a == b
  {
    forall id ensures TreeOf(a.staging, id) == TreeOf(b.staging, id) {
      assert TreeAt(a, StagingAt(id)) == TreeAt(b, StagingAt(id));
    }
    forall id ensures TreeOf(a.failed, id) == TreeOf(b.failed, id) {
      assert TreeAt(a, FailedAt(id)) == TreeAt(b, FailedAt(id));
    }
    forall g ensures TreeOf(a.generations, g) == TreeOf(b.generations, g) {
      assert TreeAt(a, GenerationAt(g)) == TreeAt(b, GenerationAt(g));
    }
    SameMap(a.staging, b.staging);
    SameMap(a.failed, b.failed);
    SameMap(a.generations, b.generations);
  }

  lemma SameMap(a: map<string, Tree>, b: map<string, Tree>)
    requires forall k :: TreeOf(a, k) == TreeOf(b, k)
    ensures a == b
  {
    forall k ensures k in a <==> k in b { assert TreeOf(a, k) == TreeOf(b, k); }
    forall k | k in a ensures a[k] == b[k] { assert TreeOf(a, k) == TreeOf(b, k); }
  }

  lemma SweptMore(w: World, gone: set<Place>, w1: World, p: Place, w2: World)
    requires Swept(w, gone, w1)
    requires w2 == w1.(staging := w2.staging, failed := w2.failed, generations := w2.generations)
    requires forall q :: TreeAt(w2, q) == if q == p then None else TreeAt(w1, q)
    ensures Swept(w, gone + {p}, w2)
  {
  }

  lemma SweptStart(w: World)
    ensures Swept(w, {}, w)
  {
  }

  /** Only discarded places differ. */
  ghost predicate OnlyDoomed(w: World, w': World) {
    && w' == w.(staging := w'.staging, failed := w'.failed, generations := w'.generations)
    && forall p :: TreeAt(w', p) != TreeAt(w, p) ==> Discarded(w, p)
  }

  lemma SweptIsDoomed(w: World, gone: set<Place>, w1: World, p: Place, w2: World)
    requires Swept(w, gone, w1) && (forall q :: q in gone ==> Discarded(w, q)) && Discarded(w, p)
    requires w2 == w1.(staging := w2.staging, failed := w2.failed, generations := w2.generations)
    requires forall q :: q != p ==> TreeAt(w2, q) == TreeAt(w1, q)
    ensures OnlyDoomed(w, w2)
  {
    hide Candidate, Retained;
  }

  /**
   * Collect: deletes every candidate that is not retained, in some order, looking at the pointer again before each
   * deletion. A failure stops it with only doomed trees touched.
   */
  method CollectTrees(disk: Disk, fault: Fault) returns (deleted: set<Place>, kept: set<Place>, ok: bool)
    modifies disk`staging, disk`failed, disk`generations
    ensures ok ==> disk.Snapshot() == Collect(old(disk.Snapshot()))
    ensures ok ==> forall p :: p in deleted <==> Discarded(old(disk.Snapshot()), p)
    ensures ok ==> forall p :: p in kept <==> Candidate(old(disk.Snapshot()), p) && Retained(old(disk.Snapshot()), p)
    ensures forall p :: p in deleted ==> Discarded(old(disk.Snapshot()), p)
    ensures !ok ==> OnlyDoomed(old(disk.Snapshot()), disk.Snapshot())
    ensures fault.NoFault? ==> ok
  {
    hide Candidate, Retained, Swept, Collect, TreeAt, ReadActive, OnlyDoomed;
    ghost var w := disk.Snapshot();
    var protected := RetentionSet(disk);
    var left := GcCandidates(disk);
    ghost var candidates := left;
    deleted, kept := {}, {};
    var n := 0;
    SweptStart(w);
    while left != {}
      invariant left <= candidates && deleted + kept == candidates - left
      invariant deleted !! protected && kept <= protected
      invariant Swept(w, deleted, disk.Snapshot())
      decreases left
    {
      var p :| p in left;
      left := left - {p};
      if p in protected {
        kept := kept + {p};
      } else {
        ActiveIsRetained(w);
        SweptPointer(w, deleted, disk.Snapshot());
        var active := disk.ReadActivePointer();
        if active.Valid? && p == GenerationAt(active.generationId) {
          assert false;
        } else {
          var found := LookAt(disk, p);
          ghost var before := disk.Snapshot();
          if fault.Fault? && fault.at == n && found.Some? {
            var tree := found.value;
            RemoveTree(disk, p, Some(map f | f in tree && f in fault.spared :: tree[f]));
            SweptIsDoomed(w, deleted, before, p, disk.Snapshot());
            return deleted, kept, false;
          }
          RemoveTree(disk, p, None);
          SweptMore(w, deleted, before, p, disk.Snapshot());
          deleted := deleted + {p};
          n := n + 1;
        }
      }
    }
    ok := true;
    SweptAll(w, deleted, disk.Snapshot());
  }

  lemma ActiveIsRetained(w: World)
    ensures ReadActive(w).Valid? ==> Retained(w, GenerationAt(ReadActive(w).generationId))
  {
    hide ReadActive, LatestHitAmong, Superseded;
  }
}
