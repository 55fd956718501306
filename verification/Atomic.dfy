/** Writing a record file so that readers see the whole old record or the whole new one, and persisting truthfully. */
module Atomic {
  import opened InstallTypes

  // ---------------------------------------------------------------- the operations, in order

  /** The operations and the nine injection points of one atomic write, in the order they are reached. */
  datatype Step =
    | BeforeTempCreate | Create | AfterTempCreate | Write | AfterWrite | FileSync | AfterFileSync | Close | AfterClose
    | Inspect | PreSync | AfterPreSync | Replace | AfterReplace | FinalSync | AfterFinalSync | ReadBack | AfterReadback

  function Order(s: Step): nat {
    match s
    case BeforeTempCreate => 0 case Create => 1 case AfterTempCreate => 2 case Write => 3 case AfterWrite => 4
    case FileSync => 5 case AfterFileSync => 6 case Close => 7 case AfterClose => 8 case Inspect => 9
    case PreSync => 10 case AfterPreSync => 11 case Replace => 12 case AfterReplace => 13 case FinalSync => 14
    case AfterFinalSync => 15 case ReadBack => 16 case AfterReadback => 17
  }

  /** What happens at a step: it works, returns an error, or the process dies there. */
  datatype Event = Fine | Fails | Dies

  type Script = Step -> Event

  datatype Result = Written | Refused | Died

  /** A file holds a whole record, or the part of one a process left behind. */
  datatype File<T> = Whole(value: T) | Fragment(value: T, written: nat)

  /** Every step before `limit` works. */
  predicate FineBefore(script: Script, limit: nat) {
    forall s: Step :: Order(s) < limit ==> script(s) == Fine
  }

  /** The rename took place. */
  predicate Landed(script: Script) {
    FineBefore(script, Order(Replace) + 1)
  }

  /** No error is returned: only the final directory sync may fail. */
  predicate Reported(script: Script) {
    (forall s: Step :: s != FinalSync ==> script(s) == Fine) && script(FinalSync) != Dies
  }

  /** The process dies: every step before works, except that a failing final sync is not an error yet. */
  predicate DiesAt(script: Script, s: Step) {
    script(s) == Dies && forall e: Step :: Order(e) < Order(s) ==>
          script(e) == Fine || (e == FinalSync && script(e) == Fails)
  }

  predicate ProcessDies(script: Script) {
    exists s: Step :: DiesAt(script, s)
  }

  function Lookup<T>(files: map<string, T>, name: string): Option<T> {
    if name in files then Some(files[name]) else None
  }

  /** Every step before s works, except that the final sync may have returned an error. */
  ghost predicate ReachedStep(script: Script, s: Step) {
    forall e: Step :: Order(e) < Order(s) ==> script(e) == Fine || (e == FinalSync && script(e) == Fails)
  }

  /** Stopping at the first step that does not work decides what is reported. */
  lemma StopsHere(script: Script, s: Step)
    requires ReachedStep(script, s) && script(s) != Fine && (s == FinalSync ==> script(s) == Dies)
    ensures !Reported(script)
    ensures ProcessDies(script) <==> script(s) == Dies
    ensures Landed(script) <==> Order(s) > Order(Replace)
  {
    if script(s) == Dies { assert DiesAt(script, s); }
    if ProcessDies(script) {
      var e: Step :| DiesAt(script, e);
      OrderIsTotal(s, e);
    }
    assert Order(s) > Order(Replace) || script(s) != Fine;
  }

  /** A failed sync of the directory after the rename is forgiven; no other failure is. */
  lemma OnlyTheLastSyncIsForgiven(script: Script, s: Step)
    requires script(s) == Fails && forall e: Step :: e != s ==> script(e) == Fine
    ensures !ProcessDies(script)
    ensures Reported(script) <==> s == FinalSync
    ensures Landed(script) <==>
              s == AfterReplace || s == FinalSync || s == AfterFinalSync || s == ReadBack || s == AfterReadback
  {
    if s != AfterReplace && s != FinalSync && s != AfterFinalSync && s != ReadBack && s != AfterReadback {
      assert Order(s) < Order(Replace) + 1 && script(s) != Fine;
    }
  }

  function Next(s: Step): Step {
    match s
    case BeforeTempCreate => Create
    case Create => AfterTempCreate
    case AfterTempCreate => Write
    case Write => AfterWrite
    case AfterWrite => FileSync
    case FileSync => AfterFileSync
    case AfterFileSync => Close
    case Close => AfterClose
    case AfterClose => Inspect
    case Inspect => PreSync
    case PreSync => AfterPreSync
    case AfterPreSync => Replace
    case Replace => AfterReplace
    case AfterReplace => FinalSync
    case FinalSync => AfterFinalSync
    case AfterFinalSync => ReadBack
    case ReadBack => AfterReadback
    case AfterReadback => AfterReadback
  }

  /** A step that works leads to the next one. */
  lemma GoesOn(script: Script, s: Step)
    requires ReachedStep(script, s) && s != AfterReadback
    requires (script(s) == Fine || (s == FinalSync && script(s) == Fails))
    ensures ReachedStep(script, Next(s))
  {
    forall e: Step | Order(e) < Order(Next(s)) ensures script(e) == Fine || (e == FinalSync && script(e) == Fails) {
      OrderIsTotal(s, e);
    }
  }

  lemma Starts(script: Script)
    ensures ReachedStep(script, BeforeTempCreate)
  {
  }

  lemma OrderIsTotal(s: Step, e: Step)
    ensures s == e || Order(s) < Order(e) || Order(e) < Order(s)
  {
  }

  lemma NothingStops(script: Script)
    requires ReachedStep(script, AfterReadback) && script(AfterReadback) == Fine
    ensures Reported(script) && Landed(script) && !ProcessDies(script)
  {
    forall s: Step | s != FinalSync ensures script(s) == Fine {
      OrderIsTotal(s, AfterReadback);
    }
  }

  /**
   * The destination holds what it held before or the whole new record, the latter exactly when the rename was reached;
   * success is reported exactly when no step but the final directory sync went wrong, and then the new record is in
   * place; a process that lives leaves no temporary file; no other file changes.
   */
  ghost predicate AtomicOutcome<T>(before: map<string, File<T>>, after: map<string, File<T>>,
                                   dest: string, temp: string, payload: T, script: Script, r: Result)
  {
    && Lookup(after, dest) == (if Landed(script) then Some(Whole(payload)) else Lookup(before, dest))
    && (r == Written <==> Reported(script))
    && (r == Died <==> ProcessDies(script))
    && (Reported(script) ==> Landed(script))
    && (r != Died ==> temp !in after)
    && (forall name :: name != dest && name != temp ==> Lookup(after, name) == Lookup(before, name))
  }

  lemma RenamedOutcome<T>(before: map<string, File<T>>, dest: string, temp: string, payload: T, script: Script,
          r: Result)
    requires temp != dest && temp !in before && Landed(script)
    requires (r == Written <==> Reported(script)) && (r == Died <==> ProcessDies(script))
    ensures AtomicOutcome(before, before[dest := Whole(payload)], dest, temp, payload, script, r)
  {
    hide Landed, Reported, ProcessDies;
  }

  class Dir<T(==)> {
    var files: map<string, File<T>>

    constructor ()
      ensures files == map[]
    {
      files := map[];
    }

    /**
     * Stopping before the rename: the deferred cleanup removes the temporary file, but a dead process removes nothing.
     */
    method Stop(dest: string, temp: string, payload: T, script: Script, s: Step, ghost before: map<string, File<T>>)
      returns (r: Result)
      requires temp != dest && temp !in before && files - {temp} == before
      requires ReachedStep(script, s) && script(s) != Fine && Order(s) <= Order(Replace)
      modifies this
      ensures AtomicOutcome(before, files, dest, temp, payload, script, r)
    {
      hide Landed, Reported, ProcessDies, ReachedStep;
      StopsHere(script, s);
      if script(s) == Dies {
        r := Died;
      } else {
        files := files - {temp};
        r := Refused;
      }
      assert forall name :: name != temp ==> Lookup(files, name) == Lookup(files - {temp}, name);
    }

    /** writeAtomicRecord, with any failure or death at any step. */
    method WriteAtomic(dest: string, temp: string, payload: T, partial: nat, script: Script) returns (r: Result)
      requires temp != dest && temp !in files
      modifies this
      ensures AtomicOutcome(old(files), files, dest, temp, payload, script, r)
    {
      hide Landed, Reported, ProcessDies, ReachedStep, AtomicOutcome;
      ghost var before := files;
      assert files - {temp} == before;
      Starts(script);
      if script(BeforeTempCreate) != Fine {
        r := Stop(dest, temp, payload, script, BeforeTempCreate, before);
        return;
      }
      GoesOn(script, BeforeTempCreate);
      if script(Create) != Fine {
        r := Stop(dest, temp, payload, script, Create, before);
        return;
      }
      GoesOn(script, Create);
      files := files[temp := Fragment(payload, 0)];
      assert files - {temp} == before;
      if script(AfterTempCreate) != Fine {
        r := Stop(dest, temp, payload, script, AfterTempCreate, before);
        return;
      }
      GoesOn(script, AfterTempCreate);
      if script(Write) != Fine {
        files := files[temp := Fragment(payload, partial)];
        assert files - {temp} == before;
        r := Stop(dest, temp, payload, script, Write, before);
        return;
      }
      GoesOn(script, Write);
      files := files[temp := Whole(payload)];
      assert files - {temp} == before;
      if script(AfterWrite) != Fine {
        r := Stop(dest, temp, payload, script, AfterWrite, before);
        return;
      }
      GoesOn(script, AfterWrite);
      r := Publish(dest, temp, payload, script, before);
    }

    /** From the written temporary file to the rename and its confirmation. */
    method Publish(dest: string, temp: string, payload: T, script: Script, ghost before: map<string, File<T>>)
      returns (r: Result)
      requires temp != dest && temp !in before && files - {temp} == before && ReachedStep(script, FileSync)
      modifies this
      ensures AtomicOutcome(before, files, dest, temp, payload, script, r)
    {
      hide Landed, Reported, ProcessDies, ReachedStep, AtomicOutcome;
      if script(FileSync) != Fine {
        r := Stop(dest, temp, payload, script, FileSync, before);
        return;
      }
      GoesOn(script, FileSync);
      if script(AfterFileSync) != Fine {
        r := Stop(dest, temp, payload, script, AfterFileSync, before);
        return;
      }
      GoesOn(script, AfterFileSync);
      if script(Close) != Fine {
        r := Stop(dest, temp, payload, script, Close, before);
        return;
      }
      GoesOn(script, Close);
      if script(AfterClose) != Fine {
        r := Stop(dest, temp, payload, script, AfterClose, before);
        return;
      }
      GoesOn(script, AfterClose);
      if script(Inspect) != Fine {
        r := Stop(dest, temp, payload, script, Inspect, before);
        return;
      }
      GoesOn(script, Inspect);
      if script(PreSync) != Fine {
        r := Stop(dest, temp, payload, script, PreSync, before);
        return;
      }
      GoesOn(script, PreSync);
      if script(AfterPreSync) != Fine {
        r := Stop(dest, temp, payload, script, AfterPreSync, before);
        return;
      }
      GoesOn(script, AfterPreSync);
      if script(Replace) != Fine {
        r := Stop(dest, temp, payload, script, Replace, before);
        return;
      }
      GoesOn(script, Replace);
      files := (files - {temp})[dest := Whole(payload)];
      assert files == before[dest := Whole(payload)];
      r := Confirm(dest, payload, script);
      RenamedOutcome(before, dest, temp, payload, script, r);
    }

    /** After the rename an error is still returned, but the new record stays; a failed final sync alone is forgiven. */
    method Confirm(dest: string, payload: T, script: Script) returns (r: Result)
      requires dest in files && files[dest] == Whole(payload) && ReachedStep(script, AfterReplace)
      ensures Landed(script)
      ensures r == Written <==> Reported(script)
      ensures r == Died <==> ProcessDies(script)
    {
      hide Landed, Reported, ProcessDies, ReachedStep;
      if script(AfterReplace) != Fine {
        StopsHere(script, AfterReplace);
        return if script(AfterReplace) == Dies then Died else Refused;
      }
      GoesOn(script, AfterReplace);
      if script(FinalSync) == Dies {
        StopsHere(script, FinalSync);
        return Died;
      }
      GoesOn(script, FinalSync);
      if script(AfterFinalSync) != Fine {
        StopsHere(script, AfterFinalSync);
        return if script(AfterFinalSync) == Dies then Died else Refused;
      }
      GoesOn(script, AfterFinalSync);
      if script(ReadBack) != Fine || files[dest] != Whole(payload) {
        StopsHere(script, ReadBack);
        return if script(ReadBack) == Dies then Died else Refused;
      }
      GoesOn(script, ReadBack);
      if script(AfterReadback) != Fine {
        StopsHere(script, AfterReadback);
        return if script(AfterReadback) == Dies then Died else Refused;
      }
      NothingStops(script);
      r := Written;
    }

    /** A record file is never a fragment; only temporary files may be. */
    ghost predicate WholeAt(dest: string)
      reads this
    {
      dest in files ==> files[dest].Whole?
    }
  }

  // ---------------------------------------------------------------- persisting a transaction record

  function RecordAt(files: map<string, File<Txn>>, dest: string): Option<Txn> {
    if dest in files && files[dest].Whole? then Some(files[dest].value) else None
  }

  function RevisionOf(r: Option<Txn>): nat {
    if r.Some? then r.value.revision else 0
  }

  /** A save that reaches its rename: a valid record, over the revision it was read at. */
  predicate Saves(before: Option<Txn>, t: Txn, script: Script) {
    ValidTransaction(t) && t.revision == RevisionOf(before) && Landed(script)
  }

  /** The record on disk after a save, whatever was reported. */
  function Saved(before: Option<Txn>, t: Txn, script: Script): Option<Txn> {
    if Saves(before, t, script) then Some(t.(revision := t.revision + 1)) else before
  }

  /** The record belongs to a newer revision than the caller holds: another writer was here. */
  predicate Overtaken(before: Option<Txn>, t: Txn) {
    before.Some? && before.value.revision > t.revision
  }

  /** SaveTransaction over the atomic write. */
  method SaveRecord(dir: Dir<Txn>, dest: string, temp: string, t: Txn, partial: nat, script: Script) returns (r: Result)
    requires dir.WholeAt(dest) && temp != dest && temp !in dir.files
    modifies dir
    ensures dir.WholeAt(dest) && RecordAt(dir.files, dest) == Saved(old(RecordAt(dir.files, dest)), t, script)
    ensures r == Written <==> Saves(old(RecordAt(dir.files, dest)), t, script) && Reported(script)
    ensures r == Died ==>
              ValidTransaction(t) && t.revision == RevisionOf(old(RecordAt(dir.files, dest))) && ProcessDies(script)
  {
    hide Landed, Reported, ProcessDies;
    var current := RecordAt(dir.files, dest);
    if !ValidTransaction(t) || t.revision != RevisionOf(current) {
      return Refused;
    }
    var payload := t.(revision := t.revision + 1);
    r := dir.WriteAtomic(dest, temp, payload, partial, script);
    assert Lookup(dir.files, dest) == if Landed(script) then Some(Whole(payload)) else old(Lookup(dir.files, dest));
  }

  /**
   * persist, truthfully and exactly: unless the process dies, nil is returned if and only if the requested record with
   * the next revision is on disk, or the disk was already newer than the caller. The record on disk is the requested
   * one or the one that was there.
   */
  method PersistRecord(dir: Dir<Txn>, dest: string, temp: string, t: Txn, partial: nat, script: Script)
    returns (t': Txn, r: Result)
    requires dir.WholeAt(dest) && temp != dest && temp !in dir.files
    modifies dir
    ensures dir.WholeAt(dest) && RecordAt(dir.files, dest) == Saved(old(RecordAt(dir.files, dest)), t, script)
    ensures r != Died ==>
              (r == Written <==>
                (Saves(old(RecordAt(dir.files, dest)), t, script) || Overtaken(old(RecordAt(dir.files, dest)), t)))
    ensures r == Written ==> RecordAt(dir.files, dest) == Some(t')
    ensures r == Refused ==> RecordAt(dir.files, dest) == old(RecordAt(dir.files, dest)) && t' == t
  {
    hide Landed, Reported, ProcessDies;
    r := SaveRecord(dir, dest, temp, t, partial, script);
    t' := t;
    var loaded := RecordAt(dir.files, dest);
    if r == Written {
      t' := loaded.value;
    } else if r == Refused && loaded.Some? && loaded.value.revision > t.revision {
      t', r := loaded.value, Written;
    }
  }

  /**
   * With a single writer, who holds the revision on disk, nil means exactly that the requested record is there, and an
   * error that the old one is.
   */
  lemma SingleWriterIsTruthful(before: Option<Txn>, t: Txn, script: Script)
    requires t.revision == RevisionOf(before)
    ensures Saves(before, t, script) || Overtaken(before, t) <==>
              Saved(before, t, script) == Some(t.(revision := t.revision + 1))
    ensures !(Saves(before, t, script) || Overtaken(before, t)) ==> Saved(before, t, script) == before
  {
  }

  /** A stale writer is told nil although its record was not written: exactly when the disk holds anything else. */
  lemma StaleWriterIsMisled(before: Txn, t: Txn, script: Script)
    requires t.revision < before.revision
    ensures Overtaken(Some(before), t) && Saved(Some(before), t, script) == Some(before)
    ensures Saved(Some(before), t, script) == Some(t.(revision := t.revision + 1)) <==>
              before == t.(revision := t.revision + 1)
  {
  }
}
