/** The staged migration of a legacy data directory, with failures and deaths at any operation. */
module Migration {
  import opened InstallTypes

  const LEGACY_IDENTIFIER := "com.yorva.desktop.dev"
  const STABLE_IDENTIFIER := "com.yorva.desktop"
  const MARKER_NAME := ".product-identity-migration.json"
  const MAX_MARKER_BYTES: nat := 4096
  const MAX_U64: nat := 0xFFFF_FFFF_FFFF_FFFF

  datatype Marker = Marker(schema: nat, source: string, target: string, files: nat, bytes: nat, completed: nat)

  /** A regular file: bytes, or a text that decodes to a marker. */
  datatype FileData = Bytes(bytes: seq<Byte>) | MarkerText(marker: Marker, size: nat)

  /** The entries of a directory in the order they are read. */
  datatype Items =
    | End
    | File(name: string, data: FileData, rest: Items)
    | Folder(name: string, inside: Items, rest: Items)
    | Link(name: string, rest: Items)
    | Special(name: string, rest: Items)

  datatype Root = Absent | NotDirectory | Directory(items: Items)

  datatype State = State(legacy: Root, stable: Root, staging: Root)

  // ---------------------------------------------------------------- what a tree holds

  function SizeOf(data: FileData): nat {
    match data
    case Bytes(bytes) => |bytes|
    case MarkerText(_, size) => size
  }

  /** Only directories and regular files. */
  predicate Plain(items: Items) {
    match items
    case End => true
    case File(_, _, rest) => Plain(rest)
    case Folder(_, inside, rest) => Plain(inside) && Plain(rest)
    case Link(_, _) => false
    case Special(_, _) => false
  }

  function FileCount(items: Items): nat {
    match items
    case End => 0
    case File(_, _, rest) => 1 + FileCount(rest)
    case Folder(_, inside, rest) => FileCount(inside) + FileCount(rest)
    case Link(_, rest) => FileCount(rest)
    case Special(_, rest) => FileCount(rest)
  }

  function ByteCount(items: Items): nat {
    match items
    case End => 0
    case File(_, data, rest) => SizeOf(data) + ByteCount(rest)
    case Folder(_, inside, rest) => ByteCount(inside) + ByteCount(rest)
    case Link(_, rest) => ByteCount(rest)
    case Special(_, rest) => ByteCount(rest)
  }

  predicate Countable(items: Items) {
    FileCount(items) <= MAX_U64 && ByteCount(items) <= MAX_U64
  }

  // ---------------------------------------------------------------- the marker

  predicate ValidMarker(data: FileData) {
    && data.MarkerText? && data.size <= MAX_MARKER_BYTES
    && data.marker.schema == 1 && data.marker.source == LEGACY_IDENTIFIER && data.marker.target == STABLE_IDENTIFIER
    && data.marker.completed != 0
  }

  datatype MarkerLook = NoMarker | GoodMarker | BadMarker

  /** has_valid_marker: absent, valid, or an error. */
  function LookForMarker(items: Items): MarkerLook {
    match items
    case End => NoMarker
    case File(name, data, rest) =>
      if name == MARKER_NAME then (if ValidMarker(data) then GoodMarker else BadMarker) else LookForMarker(rest)
    case Folder(name, _, rest) => if name == MARKER_NAME then BadMarker else LookForMarker(rest)
    case Link(name, rest) => if name == MARKER_NAME then BadMarker else LookForMarker(rest)
    case Special(name, rest) => if name == MARKER_NAME then BadMarker else LookForMarker(rest)
  }

  /** A marker is good exactly when it is small, of schema 1, between the two identifiers, and dated. */
  lemma MarkerIsGood(data: FileData, rest: Items)
    ensures LookForMarker(File(MARKER_NAME, data, rest)) == GoodMarker <==>
              exists files, bytes, completed, size ::
                && data == MarkerText(
                     Marker(1, "com.yorva.desktop.dev", "com.yorva.desktop", files, bytes, completed), size)
                && size <= 4096 && completed > 0
    ensures LookForMarker(File(MARKER_NAME, data, rest)) != NoMarker
  {
    if ValidMarker(data) {
      assert data == MarkerText(Marker(1, "com.yorva.desktop.dev", "com.yorva.desktop", data.marker.files,
            data.marker.bytes, data.marker.completed), data.size);
    }
  }

  /** Writing the marker file at the top: over a file of that name, or as a new entry; never over a directory. */
  function PutMarker(items: Items, data: FileData): Option<Items> {
    match items
    case End => Some(File(MARKER_NAME, data, End))
    case File(name, kept, rest) =>
      if name == MARKER_NAME then Some(File(name, data, rest))
      else
        (match PutMarker(rest, data)
         case None => None
         case Some(more) => Some(File(name, kept, more)))
    case Folder(name, inside, rest) =>
      if name == MARKER_NAME then None
      else
        (match PutMarker(rest, data)
         case None => None
         case Some(more) => Some(Folder(name, inside, more)))
    case Link(_, _) => None
    case Special(_, _) => None
  }

  function MarkerFor(items: Items, size: nat, now: Time): FileData {
    MarkerText(Marker(1, LEGACY_IDENTIFIER, STABLE_IDENTIFIER, FileCount(items), ByteCount(items), now), size)
  }

  /** A complete migration: the legacy tree with a marker that counts its files and bytes. */
  ghost predicate Complete(stable: Root, legacy: Root) {
    && stable.Directory? && legacy.Directory? && Plain(legacy.items)
    && exists size: nat, now: Time ::
         size <= MAX_MARKER_BYTES && PutMarker(legacy.items, MarkerFor(legacy.items, size, now)) == Some(stable.items)
  }

  /** Two listings with the same entries, except for the file of this name at the top. */
  predicate SameBut(a: Items, b: Items, name: string) {
    match a
    case End => b == End || (b.File? && b.name == name && b.rest == End)
    case File(n, data, rest) =>
      b.File? && b.name == n && (if n == name then b.rest == rest else b.data == data && SameBut(rest, b.rest, name))
    case Folder(n, inside, rest) => b.Folder? && b.name == n && b.inside == inside && SameBut(rest, b.rest, name)
    case Link(n, rest) => b.Link? && b.name == n && SameBut(rest, b.rest, name)
    case Special(n, rest) => b.Special? && b.name == n && SameBut(rest, b.rest, name)
  }

  /** The text of the marker file at the top. */
  function MarkerAt(items: Items): Option<FileData> {
    match items
    case End => None
    case File(name, data, rest) => if name == MARKER_NAME then Some(data) else MarkerAt(rest)
    case Folder(_, _, rest) => MarkerAt(rest)
    case Link(_, rest) => MarkerAt(rest)
    case Special(_, rest) => MarkerAt(rest)
  }

  lemma PutMarkerKeepsRest(items: Items, data: FileData)
    requires PutMarker(items, data).Some?
    ensures SameBut(items, PutMarker(items, data).value, MARKER_NAME)
    ensures ValidMarker(data) ==> LookForMarker(PutMarker(items, data).value) == GoodMarker
    ensures MarkerAt(PutMarker(items, data).value) == Some(data)
  {
  }

  /** A complete migration has every legacy entry, and a valid marker that counts the legacy files and their bytes. */
  lemma CompleteHasEverything(stable: Root, legacy: Root)
    requires Complete(stable, legacy)
    ensures SameBut(legacy.items, stable.items, MARKER_NAME) && LookForMarker(stable.items) == GoodMarker
    ensures MarkerAt(stable.items).Some? && MarkerAt(stable.items).value.MarkerText?
    ensures var m := MarkerAt(stable.items).value.marker;
            && m.files == FileCount(legacy.items) && m.bytes == ByteCount(legacy.items)
            && m.source == LEGACY_IDENTIFIER && m.target == STABLE_IDENTIFIER && m.schema == 1
  {
    var size: nat, now: Time :|
      size <= MAX_MARKER_BYTES && PutMarker(legacy.items, MarkerFor(legacy.items, size, now)) == Some(stable.items);
    PutMarkerKeepsRest(legacy.items, MarkerFor(legacy.items, size, now));
  }

  // ---------------------------------------------------------------- operations that may fail

  /** What happens at the n-th durable operation. */
  datatype Event = Fine | Fails | Dies

  type Script = nat -> Event

  ghost predicate Calm(script: Script) {
    forall n :: script(n) == Fine
  }

  /** One operation may fail or die, and every other one is fine. */
  ghost predicate OneFault(script: Script) {
    forall m, n :: script(m) != Fine && script(n) != Fine ==> m == n
  }

  datatype Result = Done | Refused | Died

  datatype Summary = Summary(files: nat, bytes: nat)

  function ResultOf(event: Event): Result {
    match event
    case Fine => Done
    case Fails => Refused
    case Dies => Died
  }

  /** checked_add over u64, for one more file. */
  function Counted(summary: Summary, size: nat): Option<Summary> {
    if summary.files + 1 > MAX_U64 || summary.bytes + size > MAX_U64 then None
    else Some(Summary(summary.files + 1, summary.bytes + size))
  }

  /** The counts after copying these entries on top of an earlier summary. */
  function Plus(summary: Summary, items: Items): Summary {
    Summary(summary.files + FileCount(items), summary.bytes + ByteCount(items))
  }

  predicate InRange(summary: Summary) {
    summary.files <= MAX_U64 && summary.bytes <= MAX_U64
  }

  /**
   * copy_directory: entry by entry, in order. It succeeds only on a plain tree, with everything copied and counted; on
   * a plain tree whose counts fit, only a failing operation stops it.
   */
  method CopyDirectory(source: Items, before: Summary, script: Script, first: nat)
    returns (copied: Items, summary: Summary, next: nat, r: Result)
    requires InRange(before)
    ensures r == Done ==> copied == source && Plain(source) && summary == Plus(before, source) && InRange(summary)
    ensures Calm(script) ==> (r == Done <==> Plain(source) && InRange(Plus(before, source)))
    ensures Calm(script) ==> r != Died
    ensures first <= next
    ensures r != Done && Plain(source) && InRange(Plus(before, source)) ==>
              exists k :: first <= k < next && script(k) != Fine
    decreases source
  {
    copied, summary, next, r := End, before, first, Done;
    match source
    case End =>
    case Link(_, _) => r := Refused;
    case Special(_, _) => r := Refused;
    case Folder(name, inside, rest) =>
      next := first + 1;
      if script(first) != Fine {
        r := ResultOf(script(first));
        return;
      }
      var within;
      within, summary, next, r := CopyDirectory(inside, before, script, next);
      copied := Folder(name, within, End);
      if r != Done {
        return;
      }
      var more;
      more, summary, next, r := CopyDirectory(rest, summary, script, next);
      copied := Folder(name, within, more);
    case File(name, data, rest) =>
      next := first + 1;
      copied := File(name, Bytes([]), End);
      if script(first) != Fine {
        r := ResultOf(script(first));
        return;
      }
      copied := File(name, data, End);
      var counted := Counted(before, SizeOf(data));
      if counted.None? {
        r := Refused;
        return;
      }
      var more;
      more, summary, next, r := CopyDirectory(rest, counted.value, script, next);
      copied := File(name, data, more);
  }

  // ---------------------------------------------------------------- one run

  /**
   * The cleanup after a refused copy goes through: nothing fails, or the one fault is what the copy was refused for.
   */
  ghost predicate CleansUp(script: Script, items: Items) {
    Calm(script) || (OneFault(script) && Copyable(items) && script(0) == script(1) == script(2) == Fine)
  }

  /** Nothing is on the stable side, or an empty directory. */
  ghost predicate Untouched(stable: Root) {
    stable == Absent || stable == Directory(End)
  }

  /** Only directories and files, counted without overflow, and no directory of the marker's name. */
  predicate Copyable(items: Items) {
    Plain(items) && Countable(items) && PutMarker(items, Bytes([])).Some?
  }

  /** The staging copy may be made: the stable side is free and nothing odd stands in the way. */
  ghost predicate Migratable(s: State) {
    && s.legacy.Directory? && Untouched(s.stable) && !s.staging.NotDirectory?
    && Copyable(s.legacy.items)
  }

  /** There is nothing to do. */
  ghost predicate Settled(s: State) {
    s.legacy.Absent? || (s.legacy.Directory? && s.stable.Directory? && LookForMarker(s.stable.items) == GoodMarker)
  }

  /** What one run may do to the disk, however it goes. */
  ghost predicate Ran(s: State, t: State) {
    && t.legacy == s.legacy
    && (t.stable == s.stable || (Untouched(s.stable) && (t.stable == Absent || Complete(t.stable, s.legacy))))
    && (t.staging == s.staging || !t.staging.NotDirectory?)
    && (Settled(s) ==> t == s)
  }

  class ProductData {
    var legacy: Root
    var stable: Root
    var staging: Root

    ghost function Snapshot(): State
      reads this
    {
      State(legacy, stable, staging)
    }

    constructor (legacy: Root, stable: Root, staging: Root)
      ensures Snapshot() == State(legacy, stable, staging)
    {
      this.legacy, this.stable, this.staging := legacy, stable, staging;
    }

    /**
     * migrate_legacy_directory. Whatever fails or dies: the legacy tree is not changed, and the stable side is as it
     * was, missing, or complete with its marker. Undisturbed, it succeeds exactly when it is settled or the copy can be
     * made. What was not to be migrated is not touched. The staging copy does not outlive a success, nor a copy that
     * was refused when the cleanup goes through.
     */
    method Migrate(script: Script, size: nat, now: Time) returns (r: Result)
      requires size <= MAX_MARKER_BYTES
      modifies this
      ensures Ran(old(Snapshot()), Snapshot())
      ensures r == Done ==> Settled(Snapshot())
      ensures Calm(script) ==> (r == Done <==> Settled(old(Snapshot())) || Migratable(old(Snapshot())))
      ensures Calm(script) && Migratable(old(Snapshot())) && !Settled(old(Snapshot())) ==> Complete(stable, legacy)
      ensures !legacy.Directory? || !Untouched(old(stable)) ==> Snapshot() == old(Snapshot())
      ensures r == Done && !Settled(old(Snapshot())) ==> staging.Absent?
      ensures r == Refused && legacy.Directory? && Untouched(old(stable)) && !old(staging).NotDirectory? ==>
                (CleansUp(script, legacy.items) ==> staging.Absent? && stable.Absent?)
    {
      if legacy.Absent? {
        return Done;
      }
      if legacy.NotDirectory? || stable.NotDirectory? {
        return Refused;
      }
      if stable.Directory? {
        match LookForMarker(stable.items)
        case GoodMarker => return Done;
        case BadMarker => return Refused;
        case NoMarker =>
        if stable.items != End {
          return Refused;
        }
        if script(0) != Fine {
          return ResultOf(script(0));
        }
        stable := Absent;
      }
      r := Stage(script, size, now);
      if r == Done { CompleteIsSettled(Snapshot()); }
    }

    /** Staging, copy, marker and rename, with the stable side free. */
    method Stage(script: Script, size: nat, now: Time) returns (r: Result)
      requires legacy.Directory? && stable == Absent && size <= MAX_MARKER_BYTES
      modifies this`stable, this`staging
      ensures stable == Absent || Complete(stable, legacy)
      ensures staging == old(staging) || !staging.NotDirectory?
      ensures r == Done ==> Complete(stable, legacy)
      ensures Calm(script) ==> (r == Done <==> Migratable(old(Snapshot())))
      ensures r == Done ==> staging.Absent?
      ensures r == Refused && !old(staging).NotDirectory? && CleansUp(script, legacy.items) ==>
                staging.Absent? && stable.Absent?
    {
      if staging.NotDirectory? {
        return Refused;
      }
      if staging.Directory? {
        if script(1) != Fine {
          return ResultOf(script(1));
        }
        staging := Absent;
      }
      if script(2) != Fine {
        return ResultOf(script(2));
      }
      staging := Directory(End);
      var next;
      r, next := Fill(script, size, now);
      if r == Refused && script(next) == Fine {
        staging := Absent;
      }
    }

    method Fill(script: Script, size: nat, now: Time) returns (r: Result, next: nat)
      requires legacy.Directory? && stable == Absent && staging == Directory(End) && size <= MAX_MARKER_BYTES
      modifies this`stable, this`staging
      ensures stable == Absent || Complete(stable, legacy)
      ensures !staging.NotDirectory?
      ensures r == Done <==> Complete(stable, legacy)
      ensures r == Done ==> staging.Absent?
      ensures r == Refused && CleansUp(script, legacy.items) ==> script(next) == Fine
      ensures Calm(script) ==>
                (r == Done <==> Copyable(legacy.items))
      ensures Calm(script) ==> r != Died
    {
      hide Complete, PutMarker, Plain, FileCount, ByteCount;
      var copied, summary;
      copied, summary, next, r := CopyDirectory(legacy.items, Summary(0, 0), script, 3);
      staging := Directory(copied);
      NotComplete(legacy);
      if r != Done {
        return;
      }
      var marker := MarkerText(Marker(1, LEGACY_IDENTIFIER, STABLE_IDENTIFIER, summary.files, summary.bytes, now),
            size);
      var marked := PutMarker(copied, marker);
      PutMarkerAnyData(copied, marker, Bytes([]));
      if script(next) != Fine {
        r, next := ResultOf(script(next)), next + 1;
        return;
      }
      if marked.None? {
        return Refused, next + 1;
      }
      staging := Directory(marked.value);
      next := next + 1;
      if script(next) != Fine {
        r, next := ResultOf(script(next)), next + 1;
        return;
      }
      MarkedIsComplete(legacy, marked.value, size, now);
      stable, staging := staging, Absent;
      r, next := Done, next + 1;
    }
  }

  lemma NotComplete(legacy: Root)
    ensures !Complete(Absent, legacy)
  {
  }

  lemma MarkedIsComplete(legacy: Root, marked: Items, size: nat, now: Time)
    requires legacy.Directory? && Plain(legacy.items) && size <= MAX_MARKER_BYTES
    requires PutMarker(legacy.items, MarkerFor(legacy.items, size, now)) == Some(marked)
    ensures Complete(Directory(marked), legacy)
  {
  }

  lemma PutMarkerAnyData(items: Items, a: FileData, b: FileData)
    ensures PutMarker(items, a).Some? <==> PutMarker(items, b).Some?
  {
  }

  // ---------------------------------------------------------------- crashes and reruns

  /** A sequence of runs, each of which may have failed or died anywhere. */
  ghost predicate Runs(states: seq<State>) {
    && |states| > 0
    && forall k :: 0 <= k < |states| - 1 ==> Ran(states[k], states[k + 1])
  }

  ghost predicate StableIsSafe(s: State) {
    Untouched(s.stable) || Complete(s.stable, s.legacy)
  }

  /** Through any number of runs the legacy tree is the same, and the stable side is free or complete at every step. */
  lemma {:induction false} CrashesKeepDataSafe(states: seq<State>, k: nat)
    requires Runs(states) && k < |states| && StableIsSafe(states[0])
    ensures states[k].legacy == states[0].legacy && StableIsSafe(states[k])
    ensures !states[0].staging.NotDirectory? ==> !states[k].staging.NotDirectory?
  {
    hide Complete;
    if k > 0 {
      CrashesKeepDataSafe(states, k - 1);
      assert Ran(states[k - 1], states[k]);
    }
  }

  /** A complete migration is settled: every later run leaves the disk as it is. */
  lemma CompleteIsSettled(s: State)
    requires Complete(s.stable, s.legacy)
    ensures Settled(s)
  {
    CompleteHasEverything(s.stable, s.legacy);
  }

  lemma {:induction false} SettledStays(states: seq<State>, k: nat, n: nat)
    requires Runs(states) && k <= n < |states| && Settled(states[k])
    ensures states[n] == states[k]
  {
    hide Settled;
    if n > k {
      SettledStays(states, k, n - 1);
      assert Ran(states[n - 1], states[n]);
    }
  }

  /**
   * Crash safety: after any number of crashed runs over data that can be migrated, the disk is complete already or can
   * still be migrated, so by Migrate's contract one undisturbed run ends complete.
   */
  lemma CrashedRunsCanBeRepeated(states: seq<State>, n: nat)
    requires Runs(states) && n < |states| && Migratable(states[0])
    ensures Complete(states[n].stable, states[0].legacy) || Migratable(states[n])
  {
    hide Complete;
    CrashesKeepDataSafe(states, n);
  }
}
