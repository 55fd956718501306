/** Managed skill bundles: the length-framed digest, the inspection of a source directory and its copy. */
module Bundle {
  import opened InstallTypes
  import opened Seal

  const MAX_FILES: nat := 128
  const MAX_DEPTH: nat := 8
  const MAX_FILE_BYTES: nat := 512 * 1024
  const MAX_TOTAL_BYTES: nat := 2 * 1024 * 1024
  const SKILL_FILE := "SKILL.md"
  const MARKER_FILE := ".yorva-managed.json"

  // ---------------------------------------------------------------- the framed encoding

  /** One file of a bundle: its slash-separated path, as the bytes of its text, and its content. */
  datatype Frame = Frame(path: seq<Byte>, bytes: seq<Byte>)

  /** The n big-endian base-256 digits of v; higher digits are cut off, as a conversion to a fixed width does. */
  function BigEndian(v: nat, n: nat): (digits: seq<Byte>)
    ensures |digits| == n
  {
    if n == 0 then [] else BigEndian(v / 256, n - 1) + [v % 256]
  }

  function FromBigEndian(digits: seq<Byte>): nat {
    if digits == [] then 0 else FromBigEndian(digits[..|digits| - 1]) * 256 + digits[|digits| - 1]
  }

  function Power256(n: nat): nat {
    if n == 0 then 1 else 256 * Power256(n - 1)
  }

  lemma {:induction false} BigEndianRoundTrip(v: nat, n: nat)
    requires v < Power256(n)
    ensures FromBigEndian(BigEndian(v, n)) == v
  {
    if n > 0 {
      BigEndianRoundTrip(v / 256, n - 1);
      var digits := BigEndian(v, n);
      assert digits[..n - 1] == BigEndian(v / 256, n - 1);
    }
  }

  /** The most significant byte comes first, then the digits of the rest. */
  lemma {:induction false} MostSignificantFirst(d: Byte, rest: nat, n: nat)
    requires rest < Power256(n)
    ensures BigEndian(d * Power256(n) + rest, n + 1) == [d] + BigEndian(rest, n)
  {
    if n > 0 {
      var high := d * Power256(n - 1);
      assert d * Power256(n) == 256 * high;
      assert (256 * high + rest) / 256 == high + rest / 256;
      MostSignificantFirst(d, rest / 256, n - 1);
    }
  }

  /** A frame whose lengths fit the 4-byte and the 8-byte prefix. */
  predicate Fits(f: Frame) {
    |f.path| < Power256(4) && |f.bytes| < Power256(8)
  }

  /** What hashFile feeds to the hash for one file. */
  function EncodeFrame(f: Frame): seq<Byte> {
    BigEndian(|f.path|, 4) + f.path + BigEndian(|f.bytes|, 8) + f.bytes
  }

  /** A frame is a 4-byte length, the path, an 8-byte length and the content, in this order. */
  lemma FrameLayout(f: Frame)
    ensures var code, n := EncodeFrame(f), |f.path|;
            && |code| == 4 + n + 8 + |f.bytes|
            && code[..4] == BigEndian(n, 4) && code[4..4 + n] == f.path
            && code[4 + n..4 + n + 8] == BigEndian(|f.bytes|, 8) && code[4 + n + 8..] == f.bytes
  {
  }

  function Encode(frames: seq<Frame>): seq<Byte> {
    if frames == [] then [] else EncodeFrame(frames[0]) + Encode(frames[1..])
  }

  datatype Split = Split(head: seq<Byte>, tail: seq<Byte>)

  function Take(s: seq<Byte>, n: nat): Option<Split> {
    if n <= |s| then Some(Split(s[..n], s[n..])) else None
  }

  /** A length prefix of the given width, then as many bytes. */
  function TakeBlock(s: seq<Byte>, width: nat): (r: Option<Split>)
    ensures r.Some? && width > 0 ==> |r.value.tail| < |s|
  {
    match Take(s, width)
    case None => None
    case Some(prefix) => Take(prefix.tail, FromBigEndian(prefix.head))
  }

  function Decode(s: seq<Byte>): Option<seq<Frame>>
    decreases |s|
  {
    if s == [] then Some([])
    else
      match TakeBlock(s, 4)
      case None => None
      case Some(path) =>
        match TakeBlock(path.tail, 8)
        case None => None
        case Some(content) =>
          match Decode(content.tail)
          case None => None
          case Some(rest) => Some([Frame(path.head, content.head)] + rest)
  }

  lemma TakeAppended(head: seq<Byte>, tail: seq<Byte>)
    ensures Take(head + tail, |head|) == Some(Split(head, tail))
  {
    assert (head + tail)[..|head|] == head && (head + tail)[|head|..] == tail;
  }

  lemma BlockRoundTrip(block: seq<Byte>, width: nat, rest: seq<Byte>)
    requires |block| < Power256(width)
    ensures TakeBlock(BigEndian(|block|, width) + block + rest, width) == Some(Split(block, rest))
  {
    hide BigEndian, FromBigEndian, Power256, Take;
    var prefix := BigEndian(|block|, width);
    BigEndianRoundTrip(|block|, width);
    assert prefix + block + rest == prefix + (block + rest);
    TakeAppended(prefix, block + rest);
    TakeAppended(block, rest);
  }

  lemma DecodeStep(s: seq<Byte>, f: Frame, tail: seq<Byte>, rest: seq<Byte>)
    requires s != [] && TakeBlock(s, 4) == Some(Split(f.path, tail)) && TakeBlock(tail, 8) == Some(Split(f.bytes, rest))
    ensures Decode(rest).Some? ==> Decode(s) == Some([f] + Decode(rest).value)
  {
    hide TakeBlock;
  }

  /** The encoding is uniquely decodable: the decoder inverts it. */
  lemma {:induction false} DecodeInverts(frames: seq<Frame>)
    requires forall i :: 0 <= i < |frames| ==> Fits(frames[i])
    ensures Decode(Encode(frames)) == Some(frames)
  {
    hide TakeBlock, BigEndian, Power256, Decode;
    if frames == [] {
      assert Decode([]) == Some([]) by { DecodeEmpty(); }
    } else {
      var f, rest := frames[0], Encode(frames[1..]);
      assert Fits(f);
      var tail := BigEndian(|f.bytes|, 8) + f.bytes + rest;
      DecodeInverts(frames[1..]);
      BlockRoundTrip(f.path, 4, tail);
      BlockRoundTrip(f.bytes, 8, rest);
      assert Encode(frames) == BigEndian(|f.path|, 4) + f.path + tail;
      DecodeStep(Encode(frames), f, tail, rest);
      assert frames == [f] + frames[1..];
    }
  }

  lemma DecodeEmpty()
    ensures Decode([]) == Some([])
  {
  }

  /** Equal pre-images come from equal lists of files. */
  lemma EncodingIsInjective(a: seq<Frame>, b: seq<Frame>)
    requires forall i :: 0 <= i < |a| ==> Fits(a[i])
    requires forall i :: 0 <= i < |b| ==> Fits(b[i])
    requires Encode(a) == Encode(b)
    ensures a == b
  {
    DecodeInverts(a);
    DecodeInverts(b);
  }

  // ---------------------------------------------------------------- a source directory

  /** Everything a walk meets: files with their bytes, and directories. Paths are texts of bytes. */
  datatype Node = Directory | Regular(bytes: seq<Byte>)

  type Source = map<string, Node>

  predicate ByteText(path: string) {
    forall i :: 0 <= i < |path| ==> path[i] as int < 256
  }

  function PathBytes(path: string): (bytes: seq<Byte>)
    ensures |bytes| == |path|
  {
    seq(|path|, i requires 0 <= i < |path| => (path[i] as int) % 256)
  }

  lemma PathBytesInjective(a: string, b: string)
    requires ByteText(a) && ByteText(b) && PathBytes(a) == PathBytes(b)
    ensures a == b
  {
    forall i | 0 <= i < |a| ensures a[i] == b[i] {
      assert PathBytes(a)[i] == a[i] as int && PathBytes(b)[i] == b[i] as int;
    }
  }

  function Slashes(path: string): nat {
    if path == "" then 0 else (if path[0] == '/' then 1 else 0) + Slashes(path[1..])
  }

  function Depth(path: string): nat {
    Slashes(path) + 1
  }

  /** The depth of a path is the number of its segments. */
  lemma {:induction false} DepthOfJoined(a: string, b: string)
    ensures Depth(a + "/" + b) == Depth(a) + Depth(b)
    ensures '/' !in a ==> Depth(a) == 1
  {
    if a == "" {
      assert (a + "/" + b)[1..] == b;
    } else {
      assert (a + "/" + b)[1..] == a[1..] + "/" + b;
      DepthOfJoined(a[1..], b);
    }
  }

  /** The files that are content: all but an excluded ownership marker. */
  function ContentFiles(source: Source, excludeMarker: bool): Tree {
    map p | p in source && source[p].Regular? && !(excludeMarker && p == MARKER_FILE) :: Raw(source[p].bytes)
  }

  function BytesOf(e: ManifestEntry): seq<Byte> {
    if e.sha.Sha256? && e.sha.content.Raw? then e.sha.content.bytes else []
  }

  function TotalOf(es: seq<ManifestEntry>): nat {
    if es == [] then 0 else |BytesOf(es[0])| + TotalOf(es[1..])
  }

  function FrameOf(e: ManifestEntry): Frame {
    Frame(PathBytes(e.path), BytesOf(e))
  }

  function FramesOf(es: seq<ManifestEntry>): (frames: seq<Frame>)
    ensures |frames| == |es| && forall i :: 0 <= i < |es| ==> frames[i] == FrameOf(es[i])
  {
    seq(|es|, i requires 0 <= i < |es| => FrameOf(es[i]))
  }

  /** The pre-image of the content digest: the frames of the files in path order. */
  ghost function PreImage(files: Tree): seq<Byte> {
    Encode(FramesOf(Listing(files)))
  }

  predicate BundleTree(files: Tree) {
    forall p :: p in files ==> files[p].Raw? && ByteText(p) && |p| < Power256(4) && |files[p].bytes| < Power256(8)
  }

  lemma FramesFit(files: Tree)
    requires BundleTree(files)
    ensures forall i :: 0 <= i < |FramesOf(Listing(files))| ==> Fits(FramesOf(Listing(files))[i])
  {
    var es := Listing(files);
    forall i | 0 <= i < |es| ensures Fits(FrameOf(es[i])) {
      assert es[i] in es;
    }
  }

  /** Equal digests mean equal sets of files with equal contents; the digest is injective, as SHA-256 is taken to be. */
  lemma DigestPinsBundle(a: Tree, b: Tree)
    requires BundleTree(a) && BundleTree(b) && PreImage(a) == PreImage(b)
    ensures a == b
  {
    hide Encode, BundleTree;
    var x, y := Listing(a), Listing(b);
    FramesFit(a);
    FramesFit(b);
    EncodingIsInjective(FramesOf(x), FramesOf(y));
    assert |x| == |y|;
    forall i | 0 <= i < |x| ensures x[i] == y[i] {
      assert FramesOf(x)[i] == FramesOf(y)[i];
      EntryFromFrame(a, x, b, y, i);
    }
    ManifestIsInjective(a, b);
  }

  lemma EntryFromFrame(a: Tree, x: seq<ManifestEntry>, b: Tree, y: seq<ManifestEntry>, i: nat)
    requires BundleTree(a) && BundleTree(b) && Lists(x, a) && Lists(y, b) && i < |x| && i < |y|
    requires FrameOf(x[i]) == FrameOf(y[i])
    ensures x[i] == y[i]
  {
    assert x[i] in x && y[i] in y;
    PathBytesInjective(x[i].path, y[i].path);
  }

  // ---------------------------------------------------------------- inspection

  /** How the platform folds the case of a path, and which relative paths are safe to use. */
  datatype Platform = Platform(fold: string -> string, safe: string -> bool)

  ghost predicate Acceptable(platform: Platform, source: Source, excludeMarker: bool) {
    var files := ContentFiles(source, excludeMarker);
    && (forall p :: p in source ==> platform.safe(p) && Depth(p) <= MAX_DEPTH)
    && (forall p, q :: p in source && q in source && platform.fold(p) == platform.fold(q) ==> p == q)
    && (MARKER_FILE in source && source[MARKER_FILE].Regular? ==> excludeMarker)
    && (forall p :: p in files ==> |source[p].bytes| <= MAX_FILE_BYTES)
    && TotalOf(Listing(files)) <= MAX_TOTAL_BYTES && |Listing(files)| <= MAX_FILES
    && SKILL_FILE in files
  }

  lemma {:induction false} ListingLength(files: Tree)
    ensures |Listing(files)| == |files|
    decreases |files|
  {
    if files != map[] {
      var p :| p in files;
      var rest := files - {p};
      assert rest.Keys == files.Keys - {p} && |rest.Keys| == |files.Keys| - 1;
      InsertListing(Listing(rest), p, files);
      InsertElements(Listing(rest), EntryOf(files, p));
      ManifestIgnoresWalkOrder(Insert(Listing(rest), EntryOf(files, p)), files);
      ListingLength(rest);
    }
  }

  /** The limits in figures: an acceptable bundle is within each of them, and one beyond any of them is refused. */
  lemma LimitsAreKept(platform: Platform, source: Source, excludeMarker: bool)
    ensures var files := ContentFiles(source, excludeMarker);
            && (Acceptable(platform, source, excludeMarker) ==>
                  |files| <= 128 && TotalOf(Listing(files)) <= 2097152 && "SKILL.md" in files)
            && ((exists p :: p in source && Depth(p) > 8) || (exists p :: p in files && |source[p].bytes| > 524288)
                || (exists p :: p in source && !platform.safe(p)) ==>
                  !Acceptable(platform, source, excludeMarker))
            && (!excludeMarker && ".yorva-managed.json" in source && source[".yorva-managed.json"].Regular? ==>
                  !Acceptable(platform, source, excludeMarker))
  {
    hide Depth, TotalOf;
    ListingLength(ContentFiles(source, excludeMarker));
  }

  datatype Inspected = Inspected(files: seq<string>, preImage: seq<Byte>, total: nat)

  function PathsOf(es: seq<ManifestEntry>): (paths: seq<string>)
    ensures |paths| == |es| && forall i :: 0 <= i < |es| ==> paths[i] == es[i].path
  {
    seq(|es|, i requires 0 <= i < |es| => es[i].path)
  }

  lemma InsertTotal(es: seq<ManifestEntry>, e: ManifestEntry)
    ensures TotalOf(Insert(es, e)) == TotalOf(es) + |BytesOf(e)|
  {
  }

  /** hashFile over the sorted entries. */
  method HashFiles(entries: seq<ManifestEntry>) returns (preImage: seq<Byte>)
    ensures preImage == Encode(FramesOf(entries))
  {
    preImage := [];
    for i := 0 to |entries|
      invariant preImage == Encode(FramesOf(entries[..i]))
    {
      EncodeAppends(FramesOf(entries[..i]), FrameOf(entries[i]));
      assert FramesOf(entries[..i + 1]) == FramesOf(entries[..i]) + [FrameOf(entries[i])];
      preImage := preImage + BigEndian(|entries[i].path|, 4);
      preImage := preImage + PathBytes(entries[i].path);
      preImage := preImage + BigEndian(|BytesOf(entries[i])|, 8);
      preImage := preImage + BytesOf(entries[i]);
    }
    assert entries[..|entries|] == entries;
  }

  lemma {:induction false} EncodeAppends(frames: seq<Frame>, f: Frame)
    ensures Encode(frames + [f]) == Encode(frames) + BigEndian(|f.path|, 4) + f.path + BigEndian(|f.bytes|, 8) + f.bytes
  {
    if frames == [] {
      assert Encode([f]) == EncodeFrame(f) + Encode([f][1..]);
    } else {
      assert (frames + [f])[1..] == frames[1..] + [f];
      EncodeAppends(frames[1..], f);
    }
  }

  /** What the walk has found wrong, or not, with the paths it has visited. */
  ghost predicate WalkOk(platform: Platform, source: Source, excludeMarker: bool, visited: set<string>) {
    && (forall p :: p in visited && p in source ==> platform.safe(p) && Depth(p) <= MAX_DEPTH)
    && (forall p, q :: p in visited && q in visited && platform.fold(p) == platform.fold(q) ==> p == q)
    && (MARKER_FILE in visited && MARKER_FILE in source && source[MARKER_FILE].Regular? ==> excludeMarker)
    && (forall p :: p in visited && p in source && source[p].Regular? && p != MARKER_FILE ==>
          |source[p].bytes| <= MAX_FILE_BYTES)
  }

  /** One entry of the walk against those before it. */
  ghost predicate EntryOk(platform: Platform, source: Source, excludeMarker: bool, visited: set<string>, p: string)
    requires p in source
  {
    && platform.safe(p) && Depth(p) <= MAX_DEPTH
    && (forall q :: q in visited ==> platform.fold(q) != platform.fold(p))
    && (source[p].Regular? && p == MARKER_FILE ==> excludeMarker)
    && (source[p].Regular? && p != MARKER_FILE ==> |source[p].bytes| <= MAX_FILE_BYTES)
  }

  lemma WalkMore(platform: Platform, source: Source, excludeMarker: bool, visited: set<string>, p: string)
    requires p in source && p !in visited
    ensures WalkOk(platform, source, excludeMarker, visited + {p}) <==>
              WalkOk(platform, source, excludeMarker, visited) && EntryOk(platform, source, excludeMarker, visited, p)
  {
    hide Depth;
    var more := visited + {p};
    if WalkOk(platform, source, excludeMarker, more) {
      assert p in more;
      forall q | q in visited ensures platform.fold(q) != platform.fold(p) { assert q in more; }
    }
    if WalkOk(platform, source, excludeMarker, visited) && EntryOk(platform, source, excludeMarker, visited, p) {
      forall q, r | q in more && r in more && platform.fold(q) == platform.fold(r) ensures q == r {
        assert q in visited || q == p;
        assert r in visited || r == p;
      }
    }
  }

  /** The map from folded to met paths answers whether an earlier path folds alike. */
  ghost predicate Folded(platform: Platform, folded: map<string, string>, visited: set<string>) {
    forall f :: f in folded <==> FoldsTo(platform, visited, f)
  }

  ghost predicate FoldsTo(platform: Platform, visited: set<string>, f: string) {
    exists q :: q in visited && platform.fold(q) == f
  }

  lemma WalkDecides(platform: Platform, source: Source, excludeMarker: bool)
    ensures var es := Listing(ContentFiles(source, excludeMarker));
            Acceptable(platform, source, excludeMarker) <==>
              WalkOk(platform, source, excludeMarker, source.Keys) && TotalOf(es) <= MAX_TOTAL_BYTES
                    && |es| <= MAX_FILES
              && SKILL_FILE in ContentFiles(source, excludeMarker)
  {
    hide TotalOf, Depth;
  }

  /** inspectDirectory: one walk in any order, then the sorted files and the pre-image of their digest. */
  method InspectDirectory(platform: Platform, source: Source, excludeMarker: bool) returns (r: Option<Inspected>)
    ensures r.Some? <==> Acceptable(platform, source, excludeMarker)
    ensures r.Some? ==>
              (r.value.files == PathsOf(Listing(ContentFiles(source, excludeMarker)))
               && r.value.preImage == PreImage(ContentFiles(source, excludeMarker))
               && r.value.total == TotalOf(Listing(ContentFiles(source, excludeMarker))))
  {
    hide Acceptable, WalkOk, EntryOk, Folded, TotalOf, Depth;
    var files := ContentFiles(source, excludeMarker);
    var entries, total, ok := [], 0, true;
    var folded: map<string, string> := map[];
    var left := source.Keys;
    assert files - left == map[];
    WalkStarts(platform, source, excludeMarker);
    while left != {}
      invariant left <= source.Keys
      invariant Ordered(entries) && Lists(entries, files - left) && total == TotalOf(entries)
      invariant ok <==> WalkOk(platform, source, excludeMarker, source.Keys - left)
      invariant Folded(platform, folded, source.Keys - left)
      decreases left
    {
      var p :| p in left;
      ghost var visited := source.Keys - left;
      WalkMore(platform, source, excludeMarker, visited, p);
      var fine := CheckEntry(platform, source, excludeMarker, folded, visited, p);
      ok := ok && fine;
      FoldMore(platform, folded, visited, p);
      folded := folded[platform.fold(p) := p];
      if p in files {
        ghost var walked := files - (left - {p});
        assert walked - {p} == files - left;
        InsertListing(entries, p, walked);
        InsertTotal(entries, EntryOf(files, p));
        entries := Insert(entries, EntryOf(files, p));
        total := total + |source[p].bytes|;
      } else {
        assert files - (left - {p}) == files - left;
      }
      assert source.Keys - (left - {p}) == visited + {p};
      left := left - {p};
    }
    assert files - left == files && source.Keys - left == source.Keys;
    ManifestIgnoresWalkOrder(entries, files);
    WalkDecides(platform, source, excludeMarker);
    if !ok || total > MAX_TOTAL_BYTES || |entries| > MAX_FILES || SKILL_FILE !in files {
      return None;
    }
    var preImage := HashFiles(entries);
    r := Some(Inspected(PathsOf(entries), preImage, total));
  }

  lemma WalkStarts(platform: Platform, source: Source, excludeMarker: bool)
    ensures WalkOk(platform, source, excludeMarker, source.Keys - source.Keys)
    ensures Folded(platform, map[], source.Keys - source.Keys)
    ensures TotalOf([]) == 0
  {
  }

  lemma FoldMore(platform: Platform, folded: map<string, string>, visited: set<string>, p: string)
    requires Folded(platform, folded, visited)
    ensures Folded(platform, folded[platform.fold(p) := p], visited + {p})
  {
    forall f ensures FoldsTo(platform, visited + {p}, f) <==> FoldsTo(platform, visited, f) || f == platform.fold(p) {
      if FoldsTo(platform, visited, f) {
        var q :| q in visited && platform.fold(q) == f;
        assert q in visited + {p};
      }
      assert p in visited + {p};
    }
  }

  method CheckEntry(platform: Platform, source: Source, excludeMarker: bool, folded: map<string, string>,
          ghost visited: set<string>, p: string)
    returns (fine: bool)
    requires p in source && Folded(platform, folded, visited)
    ensures fine <==> EntryOk(platform, source, excludeMarker, visited, p)
  {
    if !platform.safe(p) || Depth(p) > MAX_DEPTH {
      return false;
    }
    if platform.fold(p) in folded {
      return false;
    }
    if source[p].Regular? {
      if p == MARKER_FILE {
        return excludeMarker;
      }
      return |source[p].bytes| <= MAX_FILE_BYTES;
    }
    fine := true;
  }

  // ---------------------------------------------------------------- copying

  predicate IsParent(q: string, p: string) {
    exists k :: 0 <= k < |p| && p[k] == '/' && q == p[..k]
  }

  /** A directory tree: whatever stands above an entry is a directory in it. */
  ghost predicate WellFormed(source: Source) {
    forall p, q :: p in source && IsParent(q, p) ==> q in source && source[q].Directory?
  }

  /** The destination so far: part of the source, with these files. */
  ghost predicate PartialCopy(source: Source, copy: Source, done: set<string>) {
    && (forall p :: p in copy ==> p in source && copy[p] == source[p])
    && (forall p :: p in source && source[p].Regular? ==> (p in copy <==> p in done))
  }

  /** MkdirAll of the directories above a file. */
  method MakeParents(source: Source, copy: Source, p: string, ghost done: set<string>) returns (made: Source)
    requires WellFormed(source) && PartialCopy(source, copy, done) && p in source
    ensures PartialCopy(source, made, done)
  {
    made := copy;
    for k := 0 to |p|
      invariant PartialCopy(source, made, done)
    {
      if p[k] == '/' {
        assert IsParent(p[..k], p);
        made := made[p[..k] := Directory];
      }
    }
  }

  lemma PartHasSameFiles(source: Source, copy: Source)
    requires PartialCopy(source, copy, set p | p in source && source[p].Regular?)
    ensures ContentFiles(copy, false) == ContentFiles(source, false)
  {
  }

  lemma PartIsAcceptable(platform: Platform, source: Source, copy: Source)
    requires Acceptable(platform, source, false) && PartialCopy(source, copy, set p | p in source && source[p].Regular?)
    ensures Acceptable(platform, copy, false) && ContentFiles(copy, false) == ContentFiles(source, false)
  {
    hide TotalOf, Depth;
    PartHasSameFiles(source, copy);
  }

  /** What reading each file gives while the copy runs; the source may have changed since it was inspected. */
  type Reading = string -> Option<seq<Byte>>

  function Limited(bytes: seq<Byte>): seq<Byte> {
    if |bytes| > MAX_FILE_BYTES + 1 then bytes[..MAX_FILE_BYTES + 1] else bytes
  }

  /** The source as the copy reads it. */
  function AsRead(source: Source, reading: Reading): Source {
    map p | p in source ::
      if source[p].Regular? && reading(p).Some? then Regular(Limited(reading(p).value)) else source[p]
  }

  ghost predicate Steady(source: Source, reading: Reading) {
    forall p :: p in source && source[p].Regular? ==> reading(p) == Some(source[p].bytes)
  }

  /** Paths are texts of bytes, and shorter than a 4-byte length can say. */
  ghost predicate PathTexts(source: Source) {
    forall p :: p in source ==> ByteText(p) && |p| < Power256(4)
  }

  lemma AcceptableIsBundle(platform: Platform, source: Source)
    requires Acceptable(platform, source, false) && PathTexts(source)
    ensures BundleTree(ContentFiles(source, false))
  {
    hide TotalOf, Depth;
    assert Power256(8) > MAX_FILE_BYTES by {
      assert Power256(8) == 256 * Power256(7) && Power256(7) == 256 * Power256(6) && Power256(6) == 256 * Power256(5);
      assert Power256(5) == 256 * Power256(4) && Power256(4) == 256 * Power256(3)
            && Power256(3) == 256 * Power256(2) && Power256(2) == 65536;
    }
  }

  lemma SteadyReads(platform: Platform, source: Source, reading: Reading)
    requires Acceptable(platform, source, false) && Steady(source, reading)
    ensures AsRead(source, reading) == source
  {
    hide TotalOf, Depth;
    var seen := AsRead(source, reading);
    forall p | p in source ensures seen[p] == source[p] {
      if source[p].Regular? { assert p in ContentFiles(source, false); }
    }
  }

  /** A copy that passes inspection with the digest of the source was read from an unchanged source. */
  lemma SameDigestIsSteady(platform: Platform, source: Source, reading: Reading, copy: Source)
    requires Acceptable(platform, source, false) && PathTexts(source) && Acceptable(platform, copy, false)
    requires PartialCopy(AsRead(source, reading), copy, set p | p in source && source[p].Regular?)
    requires forall p :: p in source && source[p].Regular? ==> reading(p).Some?
    requires PreImage(ContentFiles(copy, false)) == PreImage(ContentFiles(source, false))
    ensures Steady(source, reading) && ContentFiles(copy, false) == ContentFiles(source, false)
  {
    hide Acceptable, PreImage;
    AcceptableIsBundle(platform, source);
    AcceptableIsBundle(platform, copy);
    var a, b := ContentFiles(copy, false), ContentFiles(source, false);
    DigestPinsBundle(a, b);
    forall p | p in source && source[p].Regular? ensures reading(p) == Some(source[p].bytes) {
      assert p in b && p in a && a[p] == b[p];
      assert copy[p] == AsRead(source, reading)[p];
      SmallEnough(platform, source, p);
    }
  }

  lemma SmallEnough(platform: Platform, source: Source, p: string)
    requires Acceptable(platform, source, false) && p in source && source[p].Regular?
    ensures |source[p].bytes| <= MAX_FILE_BYTES
  {
    hide TotalOf, Depth;
    assert p in ContentFiles(source, false);
  }

  class Folder {
    var content: Option<Source>

    constructor (content: Option<Source>)
      ensures this.content == content
    {
      this.content := content;
    }
  }

  /** The copy loop: every inspected file, in order, under directories made for it. */
  method CopyFiles(source: Source, folder: Folder, files: seq<string>, reading: Reading, stopAt: nat) returns (ok: bool)
    requires WellFormed(source) && folder.content == Some(map[])
    requires forall p :: p in files <==> p in source && source[p].Regular?
    requires forall i, j :: 0 <= i < j < |files| ==> files[i] != files[j]
    modifies folder
    ensures ok <==> stopAt >= |files| && forall p :: p in files ==> reading(p).Some?
    ensures ok ==> folder.content.Some?
    ensures ok ==>
              PartialCopy(AsRead(source, reading), folder.content.value, set p | p in source && source[p].Regular?)
  {
    var seen := AsRead(source, reading);
    var copy: Source := map[];
    assert WellFormed(seen) by {
      forall p, q | p in seen && IsParent(q, p) ensures q in seen && seen[q].Directory? { assert p in source; }
    }
    for i := 0 to |files|
      invariant PartialCopy(seen, copy, set p | p in files[..i])
      invariant stopAt >= i && forall j :: 0 <= j < i ==> reading(files[j]).Some?
    {
      if stopAt == i || reading(files[i]).None? {
        assert files[i] in files;
        folder.content := Some(copy);
        return false;
      }
      var p := files[i];
      copy := MakeParents(seen, copy, p, set q | q in files[..i]);
      copy := copy[p := Regular(Limited(reading(p).value))];
      assert files[..i + 1] == files[..i] + [p];
    }
    folder.content := Some(copy);
    ok := true;
    assert files[..|files|] == files;
    assert (set p | p in files) == set p | p in source && source[p].Regular?;
  }

  /**
   * CopySourceDirectory: succeeds exactly for an acceptable source, a free destination and files that read as they were
   * inspected; the destination then has the source's files and bytes. Otherwise the destination is as it was.
   */
  method CopySourceDirectory(platform: Platform, source: Source, folder: Folder, reading: Reading, stopAt: nat)
    returns (r: Option<Inspected>)
    requires WellFormed(source) && PathTexts(source)
    modifies folder
    ensures r.Some? <==>
              Acceptable(platform, source, false) && old(folder.content).None? && Steady(source, reading)
              && stopAt >= |Listing(ContentFiles(source, false))|
    ensures r.Some? ==> folder.content.Some? && ContentFiles(folder.content.value, false) == ContentFiles(source, false)
    ensures r.Some? ==> r.value.preImage == PreImage(ContentFiles(source, false))
    ensures r.None? ==> folder.content == old(folder.content)
  {
    hide Acceptable, PreImage, PartialCopy, WellFormed, PathTexts, Steady;
    var bundle := InspectDirectory(platform, source, false);
    if bundle.None? || folder.content.Some? {
      return None;
    }
    folder.content := Some(map[]);
    ListedFiles(source, bundle.value.files);
    var copied := CopyFiles(source, folder, bundle.value.files, reading, stopAt);
    if !copied {
      folder.content := None;
      SteadyFiles(source, reading);
      return None;
    }
    var copy := folder.content.value;
    r := InspectDirectory(platform, copy, false);
    if Steady(source, reading) {
      SteadyReads(platform, source, reading);
      PartIsAcceptable(platform, source, copy);
    }
    if r.None? || r.value.preImage != bundle.value.preImage {
      folder.content := None;
      return None;
    }
    SameDigestIsSteady(platform, source, reading, copy);
  }

  lemma SteadyFiles(source: Source, reading: Reading)
    ensures Steady(source, reading) ==> forall p :: p in source && source[p].Regular? ==> reading(p).Some?
  {
  }

  lemma ListedFiles(source: Source, files: seq<string>)
    requires files == PathsOf(Listing(ContentFiles(source, false)))
    ensures forall p :: p in files <==> p in source && source[p].Regular?
    ensures forall i, j :: 0 <= i < j < |files| ==> files[i] != files[j]
  {
    var content := ContentFiles(source, false);
    var es := Listing(content);
    forall p ensures p in files <==> p in content {
      if p in content { assert EntryOf(content, p) in es; }
      if p in files {
        var i :| 0 <= i < |files| && files[i] == p;
        assert es[i] in es;
      }
    }
    forall i, j | 0 <= i < j < |files| ensures files[i] != files[j] {
      PathOrderTotal(es[i].path, es[j].path);
      assert PathLess(es[i].path, es[j].path);
    }
  }
}
