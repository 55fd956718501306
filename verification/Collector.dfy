/** Garbage collection of generation, staging and failed trees. */
module Collector {
  import opened InstallTypes
  import opened Seal
  import opened World

  datatype Place = StagingAt(id: string) | FailedAt(id: string) | GenerationAt(generationId: string)

  function TreeAt(w: World, p: Place): Option<Tree> {
    match p
    case StagingAt(id) => TreeOf(w.staging, id)
    case FailedAt(id) => TreeOf(w.failed, id)
    case GenerationAt(g) => TreeOf(w.generations, g)
  }

  /** The three places where a transaction may have left a tree. */
  predicate Owns(t: Txn, p: Place) {
    match p
    case StagingAt(id) => id == t.id
    case FailedAt(id) => id == t.id
    case GenerationAt(g) => g == t.generationId
  }

  predicate LineageProven(tree: Tree, t: Txn) {
    if t.manifestSha != NoDigest && t.sealSha != NoDigest then
      VerifyPublished(tree, t.generationId, t.manifestSha, t.sealSha)
    else if ReadsGeneration(tree) then
      tree[FILE_GENERATION].generation.generationId == t.generationId
      && tree[FILE_GENERATION].generation.transactionId == t.id
    else
      ReadsCandidate(tree)
      && tree[FILE_CANDIDATE].candidate.generationId == t.generationId
      && tree[FILE_CANDIDATE].candidate.transactionId == t.id
  }

  predicate ProvenAt(w: World, t: Txn, p: Place) {
    Owns(t, p) && TreeAt(w, p).Some? && LineageProven(TreeAt(w, p).value, t)
  }

  function TxnTime(t: Txn): Time {
    if t.committedAt.Some? then t.committedAt.value else t.updatedAt
  }

  function ActiveGen(w: World): string {
    if ReadActive(w).Valid? then ReadActive(w).generationId else ""
  }

  // ---------------------------------------------------------------- what is retained

  predicate Superseded(t: Txn, activeGen: string) {
    t.state == State.Committed && t.generationId != activeGen
  }

  /** The choice is a committed record off the active pointer with the greatest time, or none. */
  ghost predicate LatestAmong(txns: seq<Txn>, activeGen: string, n: nat, c: int)
    requires n <= |txns|
  {
    && -1 <= c < n
    && (c >= 0 ==> Superseded(txns[c], activeGen))
    && forall i :: 0 <= i < n && Superseded(txns[i], activeGen) ==> c >= 0 && TxnTime(txns[i]) <= TxnTime(txns[c])
  }

  function LatestCommitted(txns: seq<Txn>, activeGen: string, n: nat): (c: int)
    requires n <= |txns|
    ensures LatestAmong(txns, activeGen, n, c)
  {
    if n == 0 then -1
    else
      var c := LatestCommitted(txns, activeGen, n - 1);
      if Superseded(txns[n - 1], activeGen) && (c < 0 || TxnTime(txns[c]) < TxnTime(txns[n - 1])) then n - 1 else c
  }

  datatype Hit = Hit(owner: nat, place: Place)

  predicate IsHit(w: World, h: Hit) {
    h.owner < |w.txns| && w.txns[h.owner].state == State.Failed && ProvenAt(w, w.txns[h.owner], h.place)
  }

  ghost predicate LatestHitAmong(w: World, n: nat, h: Option<Hit>)
    requires n <= |w.txns|
  {
    && (h.Some? ==> IsHit(w, h.value) && h.value.owner < n)
    && forall k :: IsHit(w, k) && k.owner < n ==>
         h.Some? && TxnTime(w.txns[k.owner]) <= TxnTime(w.txns[h.value.owner])
  }

  function Later(w: World, best: Option<Hit>, h: Hit): Option<Hit>
    requires best.Some? ==> best.value.owner < |w.txns|
    requires h.owner < |w.txns|
  {
    if IsHit(w, h) && (best.None? || TxnTime(w.txns[best.value.owner]) < TxnTime(w.txns[h.owner])) then Some(h)
          else best
  }

  lemma HitIsOwned(w: World, h: Hit)
    requires IsHit(w, h)
    ensures h.owner < |w.txns| && Owns(w.txns[h.owner], h.place)
  {
  }

  /** The three places of one record, one after the other. */
  function LaterOf(w: World, i: nat, best: Option<Hit>): Option<Hit>
    requires i < |w.txns| && (best.Some? ==> best.value.owner < |w.txns|)
  {
    var t := w.txns[i];
    var staged := Later(w, best, Hit(i, StagingAt(t.id)));
    var aside := Later(w, staged, Hit(i, FailedAt(t.id)));
    Later(w, aside, Hit(i, GenerationAt(t.generationId)))
  }

  lemma LaterOfIsLatest(w: World, i: nat, best: Option<Hit>)
    requires i < |w.txns| && LatestHitAmong(w, i, best)
    ensures LatestHitAmong(w, i + 1, LaterOf(w, i, best))
  {
    hide IsHit;
    forall k | IsHit(w, k) && k.owner == i
      ensures k.place == StagingAt(w.txns[i].id) || k.place == FailedAt(w.txns[i].id)
        || k.place == GenerationAt(w.txns[i].generationId)
    {
      HitIsOwned(w, k);
    }
  }

  function LatestHit(w: World, n: nat): (h: Option<Hit>)
    requires n <= |w.txns|
    ensures h.Some? ==> h.value.owner < n
  {
    if n == 0 then None else LaterOf(w, n - 1, LatestHit(w, n - 1))
  }

  lemma {:induction false} LatestHitIsLatest(w: World, n: nat)
    requires n <= |w.txns|
    ensures LatestHitAmong(w, n, LatestHit(w, n))
  {
    hide IsHit;
    if n > 0 {
      LatestHitIsLatest(w, n - 1);
      LaterOfIsLatest(w, n - 1, LatestHit(w, n - 1));
    }
  }

  /** retentionSet for a given latest superseded record and latest failed tree. */
  ghost predicate Protected(w: World, c: int, h: Option<Hit>, p: Place)
    requires c < |w.txns|
  {
    || (ReadActive(w).Valid? && p == GenerationAt(ReadActive(w).generationId))
    || (c >= 0 && p == GenerationAt(w.txns[c].generationId))
    || (h.Some? && p == h.value.place)
    || exists i :: 0 <= i < |w.txns| && Nonterminal(w.txns[i])
         && (p == StagingAt(w.txns[i].id) || p == GenerationAt(w.txns[i].generationId))
  }

  ghost predicate Candidate(w: World, p: Place) {
    exists i :: 0 <= i < |w.txns| && ProvenAt(w, w.txns[i], p)
  }

  ghost predicate Doomed(w: World, c: int, h: Option<Hit>, p: Place)
    requires c < |w.txns|
  {
    Candidate(w, p) && !Protected(w, c, h, p)
  }

  ghost function CollectWith(w: World, c: int, h: Option<Hit>): World
    requires c < |w.txns|
  {
    w.(staging := map id | id in w.staging && !Doomed(w, c, h, StagingAt(id)) :: w.staging[id],
       failed := map id | id in w.failed && !Doomed(w, c, h, FailedAt(id)) :: w.failed[id],
       generations := map g | g in w.generations && !Doomed(w, c, h, GenerationAt(g)) :: w.generations[g])
  }

  /** Protected and doomed by the choice the collector itself makes. */
  ghost predicate Retained(w: World, p: Place) {
    Protected(w, LatestCommitted(w.txns, ActiveGen(w), |w.txns|), LatestHit(w, |w.txns|), p)
  }

  ghost predicate Discarded(w: World, p: Place) {
    Candidate(w, p) && !Retained(w, p)
  }

  ghost function Collect(w: World): World {
    CollectWith(w, LatestCommitted(w.txns, ActiveGen(w), |w.txns|), LatestHit(w, |w.txns|))
  }

  // ---------------------------------------------------------------- one collection

  /** A collection removes exactly the doomed trees and changes nothing else. */
  lemma CollectedPlaces(w: World, c: int, h: Option<Hit>, p: Place)
    requires c < |w.txns|
    ensures TreeAt(CollectWith(w, c, h), p) == if Doomed(w, c, h, p) then None else TreeAt(w, p)
  {
  }

  /** The pointer reads the same after a collection: the active tree is protected. */
  lemma CollectKeepsPointer(w: World, c: int, h: Option<Hit>)
    requires c < |w.txns|
    ensures ReadActive(CollectWith(w, c, h)) == ReadActive(w)
  {
    if LoadActive(w).Some? {
      var g := LoadActive(w).value.generationId;
      CollectedPlaces(w, c, h, GenerationAt(g));
      assert TreeAt(CollectWith(w, c, h), GenerationAt(g)) == TreeOf(CollectWith(w, c, h).generations, g);
    }
  }

  /** With nothing doomed a collection is the identity. */
  lemma CollectNothing(w: World, c: int, h: Option<Hit>)
    requires c < |w.txns|
    requires forall p :: !Doomed(w, c, h, p)
    ensures CollectWith(w, c, h) == w
  {
    var w1 := CollectWith(w, c, h);
    assert w1.staging == w.staging;
    assert w1.failed == w.failed;
    assert w1.generations == w.generations;
  }

  /** Terminal records never share a commit or update time. */
  ghost predicate DistinctTimes(w: World) {
    forall i, j | 0 <= i < j < |w.txns| && Terminal(w.txns[i].state) && Terminal(w.txns[j].state)
      :: TxnTime(w.txns[i]) != TxnTime(w.txns[j])
  }

  ghost predicate OneTreePerFailure(w: World) {
    forall k, l | IsHit(w, k) && IsHit(w, l) && k.owner == l.owner :: k == l
  }

  /** A choice of retained records that sorting by time may produce, whatever order ties come in. */
  ghost predicate Chosen(w: World, c: int, h: Option<Hit>) {
    LatestAmong(w.txns, ActiveGen(w), |w.txns|, c) && LatestHitAmong(w, |w.txns|, h)
  }

  /** A second collection deletes nothing, whatever order equal times sort in. */
  lemma SecondCollectionIsIdle(w: World, c: int, h: Option<Hit>, c2: int, h2: Option<Hit>)
    requires DistinctTimes(w) && OneTreePerFailure(w)
    requires Chosen(w, c, h)
    requires Chosen(CollectWith(w, c, h), c2, h2)
    ensures CollectWith(CollectWith(w, c, h), c2, h2) == CollectWith(w, c, h)
  {
    var w1 := CollectWith(w, c, h);
    CollectKeepsPointer(w, c, h);
    SameCommitted(w, c, c2);
    SameHit(w, c, h, h2);
    forall p ensures !Doomed(w1, c, h, p) {
      SurvivorsStay(w, c, h, p);
    }
    CollectNothing(w1, c, h);
  }

  lemma SameCommitted(w: World, c: int, c2: int)
    requires DistinctTimes(w)
    requires LatestAmong(w.txns, ActiveGen(w), |w.txns|, c) && LatestAmong(w.txns, ActiveGen(w), |w.txns|, c2)
    ensures c == c2
  {
  }

  lemma SameHit(w: World, c: int, h: Option<Hit>, h2: Option<Hit>)
    requires DistinctTimes(w) && OneTreePerFailure(w)
    requires Chosen(w, c, h) && LatestHitAmong(CollectWith(w, c, h), |w.txns|, h2)
    ensures h2 == h
  {
    var w1 := CollectWith(w, c, h);
    if h.Some? {
      CollectedPlaces(w, c, h, h.value.place);
      assert IsHit(w1, h.value);
    }
    if h2.Some? {
      CollectedPlaces(w, c, h, h2.value.place);
      assert IsHit(w, h2.value);
    }
  }

  lemma SurvivorsStay(w: World, c: int, h: Option<Hit>, p: Place)
    requires c < |w.txns|
    ensures !Doomed(CollectWith(w, c, h), c, h, p)
  {
    var w1 := CollectWith(w, c, h);
    CollectKeepsPointer(w, c, h);
    CollectedPlaces(w, c, h, p);
    if Candidate(w1, p) {
      var i :| 0 <= i < |w1.txns| && ProvenAt(w1, w1.txns[i], p);
      assert ProvenAt(w, w.txns[i], p);
      assert Protected(w, c, h, p);
    }
  }
}
