/** Sealing a generation tree and verifying it against its seal. */
module Seal {
  import opened InstallTypes

  // ---------------------------------------------------------------- the order of manifest paths

  predicate PathLess(a: string, b: string) {
    b != [] && (a == [] || a[0] < b[0] || (a[0] == b[0] && PathLess(a[1..], b[1..])))
  }

  lemma PathOrderTotal(a: string, b: string)
    ensures PathLess(a, b) || PathLess(b, a) || a == b
    ensures !(PathLess(a, b) && PathLess(b, a))
    ensures !PathLess(a, a)
  {
    if a != [] && b != [] && a[0] == b[0] {
      PathOrderTotal(a[1..], b[1..]);
      assert a == [a[0]] + a[1..] && b == [b[0]] + b[1..];
    }
    if a != [] {
      PathOrderTotal(a[1..], a[1..]);
    }
  }

  lemma PathOrderTransitive(a: string, b: string, c: string)
    requires PathLess(a, b) && PathLess(b, c)
    ensures PathLess(a, c)
  {
    if a != [] && a[0] == b[0] == c[0] {
      PathOrderTransitive(a[1..], b[1..], c[1..]);
    }
  }

  // ---------------------------------------------------------------- the manifest of a file set

  predicate Ordered(es: seq<ManifestEntry>) {
    forall i, j :: 0 <= i < j < |es| ==> PathLess(es[i].path, es[j].path)
  }

  function EntryOf(files: Tree, path: string): ManifestEntry
    requires path in files
  {
    ManifestEntry(path, Sha256(files[path]))
  }

  /** The entries are exactly one for each file, with the digest of its bytes. */
  ghost predicate Lists(es: seq<ManifestEntry>, files: Tree) {
    forall e :: e in es <==> e.path in files && e == EntryOf(files, e.path)
  }

  function Insert(es: seq<ManifestEntry>, e: ManifestEntry): seq<ManifestEntry> {
    if es == [] || PathLess(e.path, es[0].path) then [e] + es
    else [es[0]] + Insert(es[1..], e)
  }

  lemma InsertElements(es: seq<ManifestEntry>, e: ManifestEntry)
    ensures forall x :: x in Insert(es, e) <==> x == e || x in es
    ensures |Insert(es, e)| == |es| + 1
  {
    if es != [] && !PathLess(e.path, es[0].path) {
      InsertElements(es[1..], e);
      assert es == [es[0]] + es[1..];
    }
  }

  lemma InsertOrdered(es: seq<ManifestEntry>, e: ManifestEntry)
    requires Ordered(es)
    requires forall x :: x in es ==> x.path != e.path
    ensures Ordered(Insert(es, e))
  {
    if es == [] {
    } else if PathLess(e.path, es[0].path) {
      forall j | 0 <= j < |es| ensures PathLess(e.path, es[j].path) {
        if j > 0 { PathOrderTransitive(e.path, es[0].path, es[j].path); }
      }
    } else {
      PathOrderTotal(e.path, es[0].path);
      assert es[0] in es;
      var rest := Insert(es[1..], e);
      InsertOrdered(es[1..], e);
      InsertElements(es[1..], e);
      forall j | 0 <= j < |rest| ensures PathLess(es[0].path, rest[j].path) {
        assert rest[j] in rest;
        if rest[j] != e {
          var k :| 0 <= k < |es[1..]| && es[1..][k] == rest[j];
          assert es[k + 1] == rest[j];
        }
      }
    }
  }

  /** Two ordered lists of the same files are the same list. */
  lemma {:induction false} ListingUnique(a: seq<ManifestEntry>, b: seq<ManifestEntry>)
    requires Ordered(a) && Ordered(b)
    requires forall x :: x in a <==> x in b
    ensures a == b
  {
    if a == [] {
      HeadMember(b);
    } else {
      assert a[0] in a;
      assert b != [] && b[0] in b;
      assert a[0] in b && b[0] in a;
      var i :| 0 <= i < |b| && b[i] == a[0];
      var j :| 0 <= j < |a| && a[j] == b[0];
      if i != 0 {
        assert PathLess(b[0].path, b[i].path);
        assert j != 0 ==> PathLess(a[0].path, a[j].path);
        PathOrderTotal(a[0].path, b[0].path);
      }
      TailMembers(a, b);
      ListingUnique(a[1..], b[1..]);
      assert a == [a[0]] + a[1..] && b == [b[0]] + b[1..];
    }
  }

  lemma HeadMember(es: seq<ManifestEntry>)
    ensures es == [] || es[0] in es
  {
  }

  lemma TailMembers(a: seq<ManifestEntry>, b: seq<ManifestEntry>)
    requires Ordered(a) && Ordered(b) && a != [] && b != [] && a[0] == b[0]
    requires forall x :: x in a <==> x in b
    ensures forall x :: x in a[1..] <==> x in b[1..]
  {
    PathOrderTotal(a[0].path, a[0].path);
    forall x ensures x in a[1..] <==> x in b[1..] {
      if x in a[1..] {
        var k :| 0 <= k < |a[1..]| && a[1..][k] == x;
        assert a[k + 1] == x && x != a[0] && x in a;
      }
      if x in b[1..] {
        var k :| 0 <= k < |b[1..]| && b[1..][k] == x;
        assert b[k + 1] == x && x != b[0] && x in b;
      }
    }
  }

  /** The files a manifest covers: everything but the two seal files. */
  function Payload(tree: Tree): Tree {
    tree - {FILE_MANIFEST, FILE_GENERATION}
  }

  /** The ordered manifest of a file set, built by taking files in any order. */
  ghost function Listing(files: Tree): (es: seq<ManifestEntry>)
    ensures Ordered(es) && Lists(es, files)
    decreases |files|
  {
    if files == map[] then []
    else
      var p :| p in files;
      var rest := files - {p};
      assert |files.Keys - {p}| < |files.Keys|;
      assert rest.Keys == files.Keys - {p};
      InsertListing(Listing(rest), p, files);
      Insert(Listing(rest), EntryOf(files, p))
  }

  lemma InsertListing(es: seq<ManifestEntry>, path: string, files: Tree)
    requires path in files
    requires Ordered(es) && Lists(es, files - {path})
    ensures Ordered(Insert(es, EntryOf(files, path))) && Lists(Insert(es, EntryOf(files, path)), files)
  {
    var e := EntryOf(files, path);
    InsertOrdered(es, e);
    InsertElements(es, e);
  }

  /** Any ordered list of the files is the manifest: the order of the walk does not matter. */
  lemma ManifestIgnoresWalkOrder(es: seq<ManifestEntry>, files: Tree)
    requires Ordered(es) && Lists(es, files)
    ensures es == Listing(files)
  {
    ListingUnique(es, Listing(files));
  }

  /** Equal manifests mean equal file sets with equal contents. */
  lemma ManifestIsInjective(a: Tree, b: Tree)
    requires Listing(a) == Listing(b)
    ensures a == b
  {
    forall p | p in a ensures p in b && a[p] == b[p] {
      assert EntryOf(a, p) in Listing(a);
    }
    forall p | p in b ensures p in a {
      assert EntryOf(b, p) in Listing(b);
    }
  }

  // ---------------------------------------------------------------- verification

  predicate ReadsGeneration(tree: Tree) {
    FILE_GENERATION in tree && tree[FILE_GENERATION].GenerationJson?
    && tree[FILE_GENERATION].generation.generationId != ""
  }

  predicate ReadsCandidate(tree: Tree) {
    FILE_CANDIDATE in tree && tree[FILE_CANDIDATE].CandidateJson?
    && ValidTxnId(tree[FILE_CANDIDATE].candidate.transactionId)
    && ValidGenId(tree[FILE_CANDIDATE].candidate.generationId)
    && tree[FILE_CANDIDATE].candidate.runtimeKind != ""
  }

  /** Metadata check: both seal files are present, hash to the recorded digests and agree. */
  predicate VerifyPublished(tree: Tree, generationId: string, manifestSha: Digest, sealSha: Digest) {
    && ValidGenId(generationId)
    && FILE_GENERATION in tree && FILE_MANIFEST in tree
    && Sha256(tree[FILE_MANIFEST]) == manifestSha
    && Sha256(tree[FILE_GENERATION]) == sealSha
    && tree[FILE_GENERATION].GenerationJson?
    && tree[FILE_GENERATION].generation.generationId == generationId
    && tree[FILE_GENERATION].generation.manifestSha == manifestSha
    && tree[FILE_GENERATION].generation.generationRelativePath == GenerationRel(generationId)
    && tree[FILE_MANIFEST].ManifestJson?
  }

  /** Full check: the metadata, plus a second walk that must give the stored manifest. */
  ghost predicate VerifySealedTree(tree: Tree, generationId: string, manifestSha: Digest, sealSha: Digest) {
    && VerifyPublished(tree, generationId, manifestSha, sealSha)
    && tree[FILE_MANIFEST].manifest.schema == MANIFEST_SCHEMA
    && Listing(Payload(tree)) == tree[FILE_MANIFEST].manifest.entries
  }

  /** The seal pins the whole tree: a second tree passes exactly when it is the same tree. */
  lemma SealPinsTree(tree: Tree, other: Tree, generationId: string, manifestSha: Digest, sealSha: Digest)
    requires VerifySealedTree(tree, generationId, manifestSha, sealSha)
    ensures VerifySealedTree(other, generationId, manifestSha, sealSha) <==> other == tree
  {
    if VerifySealedTree(other, generationId, manifestSha, sealSha) {
      ManifestIsInjective(Payload(tree), Payload(other));
      forall p ensures p in tree <==> p in other {
        assert p in Payload(tree) <==> p in Payload(other);
      }
      forall p | p in tree ensures tree[p] == other[p] {
        if p != FILE_MANIFEST && p != FILE_GENERATION {
          assert p in Payload(tree) && Payload(tree)[p] == Payload(other)[p];
        }
      }
    }
  }

  // ---------------------------------------------------------------- sealing

  /** The walk: entries appended in directory order, then sorted by path. */
  method WalkSealManifest(tree: Tree) returns (entries: seq<ManifestEntry>)
    ensures entries == Listing(Payload(tree))
  {
    entries := [];
    var files := Payload(tree);
    var left := files.Keys;
    assert files - left == map[];
    while left != {}
      invariant left <= files.Keys
      invariant Ordered(entries) && Lists(entries, files - left)
      decreases left
    {
      var path :| path in left;
      ghost var walked := files - (left - {path});
      assert walked - {path} == files - left;
      InsertListing(entries, path, walked);
      entries := Insert(entries, EntryOf(files, path));
      left := left - {path};
    }
    assert files - left == files;
    ManifestIgnoresWalkOrder(entries, files);
  }

  /** The tree after both seal files are written over it. */
  ghost function WithSeal(tree: Tree, lineage: string, transactionId: string, generationId: string): Tree {
    var manifest := ManifestJson(ManifestFile(MANIFEST_SCHEMA, Listing(Payload(tree))));
    tree[FILE_MANIFEST := manifest][FILE_GENERATION := GenerationJson(
      GenerationRecord(lineage, transactionId, generationId, GenerationRel(generationId), Sha256(manifest)))]
  }

  /** A tree that was just sealed passes the full check against the digests of its seal files. */
  lemma SealedTreeVerifies(tree: Tree, lineage: string, transactionId: string, generationId: string)
    requires ValidGenId(generationId)
    ensures var sealed := WithSeal(tree, lineage, transactionId, generationId);
            VerifySealedTree(sealed, generationId, Sha256(sealed[FILE_MANIFEST]), Sha256(sealed[FILE_GENERATION]))
  {
    assert Payload(WithSeal(tree, lineage, transactionId, generationId)) == Payload(tree);
  }
}
