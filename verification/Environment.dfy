/** The user environment: planning HERMES_HOME and PATH from the active generation. */
module Environment {
  import opened InstallTypes

  datatype Env = Env(home: string, path: seq<string>)

  datatype Policy = Policy(home: string, desiredBin: string, removableBins: set<string>, allowRemoveStale: bool)

  datatype Plan = Plan(home: string, setHome: bool, path: seq<string>, pathChanged: bool, desiredBin: string)

  /** Path spelling: two entries are the same when they expand and clean to the same text. */
  type Spelling = string -> string

  predicate SamePath(norm: Spelling, a: string, b: string) {
    norm(a) == norm(b)
  }

  predicate IsRemovable(norm: Spelling, entry: string, bins: set<string>) {
    exists bin :: bin in bins && SamePath(norm, entry, bin)
  }

  predicate Stale(norm: Spelling, policy: Policy, entry: string) {
    policy.allowRemoveStale && IsRemovable(norm, entry, policy.removableBins)
  }

  function Keep(entries: seq<string>, keep: string -> bool): (kept: seq<string>)
    ensures |kept| <= |entries|
    ensures forall i :: 0 <= i < |kept| ==> keep(kept[i])
  {
    if entries == [] then []
    else (if keep(entries[0]) then [entries[0]] else []) + Keep(entries[1..], keep)
  }

  function NotStale(norm: Spelling, policy: Policy): string -> bool {
    e => !Stale(norm, policy, e)
  }

  function NotDesired(norm: Spelling, policy: Policy): string -> bool {
    e => !SamePath(norm, e, policy.desiredBin)
  }

  predicate Leads(norm: Spelling, entries: seq<string>, desired: string) {
    |entries| > 0 && SamePath(norm, entries[0], desired)
  }

  function WithoutStale(norm: Spelling, policy: Policy, path: seq<string>): seq<string> {
    Keep(path, NotStale(norm, policy))
  }

  predicate Settled(norm: Spelling, policy: Policy, kept: seq<string>) {
    policy.desiredBin == "" || Leads(norm, kept, policy.desiredBin)
  }

  function PlannedPath(norm: Spelling, policy: Policy, path: seq<string>): seq<string> {
    var kept := WithoutStale(norm, policy, path);
    if Settled(norm, policy, kept) then kept
    else [policy.desiredBin] + Keep(kept, NotDesired(norm, policy))
  }

  predicate PathChanges(norm: Spelling, policy: Policy, path: seq<string>) {
    var kept := WithoutStale(norm, policy, path);
    |kept| < |path| || !Settled(norm, policy, kept)
  }

  /** The plan the source computes, without its loops. */
  function PlanFor(norm: Spelling, policy: Policy, observed: Env): Plan {
    Plan(
      policy.home,
      policy.home != "" && !SamePath(norm, observed.home, policy.home),
      PlannedPath(norm, policy, observed.path),
      PathChanges(norm, policy, observed.path),
      policy.desiredBin)
  }

  function Observed(norm: Spelling, plan: Plan, env: Env): EnvObservation {
    EnvObservation(
      plan.home == "" || SamePath(norm, env.home, plan.home),
      plan.desiredBin == "" || Leads(norm, env.path, plan.desiredBin))
  }

  function Apply(plan: Plan, env: Env): Env {
    Env(if plan.setHome then plan.home else env.home, if plan.pathChanged then plan.path else env.path)
  }

  // ---------------------------------------------------------------- filtering

  lemma {:induction false} KeepAppend(a: seq<string>, b: seq<string>, keep: string -> bool)
    ensures Keep(a + b, keep) == Keep(a, keep) + Keep(b, keep)
  {
    if a == [] {
      assert a + b == b;
    } else {
      var head := if keep(a[0]) then [a[0]] else [];
      KeepAppend(a[1..], b, keep);
      assert (a + b)[0] == a[0] && (a + b)[1..] == a[1..] + b;
      assert Keep(a + b, keep) == head + Keep(a[1..] + b, keep);
      assert Keep(a, keep) == head + Keep(a[1..], keep);
    }
  }

  /** Nothing dropped means nothing changed. */
  lemma KeepAll(entries: seq<string>, keep: string -> bool)
    ensures |Keep(entries, keep)| == |entries| <==> Keep(entries, keep) == entries
    ensures |Keep(entries, keep)| == |entries| <==> forall i :: 0 <= i < |entries| ==> keep(entries[i])
  {
    if entries != [] {
      KeepAll(entries[1..], keep);
      assert entries == [entries[0]] + entries[1..];
      if forall i :: 0 <= i < |entries| ==> keep(entries[i]) {
        assert forall i :: 0 <= i < |entries[1..]| ==> entries[1..][i] == entries[i + 1];
      } else if keep(entries[0]) {
        var i :| 0 <= i < |entries| && !keep(entries[i]);
        assert entries[1..][i - 1] == entries[i];
      }
    }
  }

  /** Filtering by a weaker test first does not change what the stronger test keeps. */
  lemma KeepTwice(entries: seq<string>, strong: string -> bool, weak: string -> bool)
    requires forall e :: strong(e) ==> weak(e)
    ensures Keep(Keep(entries, weak), strong) == Keep(entries, strong)
  {
    if entries != [] {
      var head := if weak(entries[0]) then [entries[0]] else [];
      KeepAppend(head, Keep(entries[1..], weak), strong);
      KeepTwice(entries[1..], strong, weak);
    }
  }

  // ---------------------------------------------------------------- properties of a plan

  predicate DesiredIsStale(norm: Spelling, policy: Policy) {
    policy.desiredBin != "" && Stale(norm, policy, policy.desiredBin)
  }

  /** Applying any plan makes the environment complete. */
  lemma AppliedPlanIsComplete(norm: Spelling, policy: Policy, observed: Env)
    ensures var plan := PlanFor(norm, policy, observed);
            EnvComplete(Observed(norm, plan, Apply(plan, observed)))
  {
    KeepAll(observed.path, NotStale(norm, policy));
  }

  /** Planning again after applying asks for no change exactly when the desired bin is not stale. */
  lemma ReplanIsIdle(norm: Spelling, policy: Policy, observed: Env)
    ensures var after := Apply(PlanFor(norm, policy, observed), observed);
            var again := PlanFor(norm, policy, after);
            (!again.setHome && !again.pathChanged) <==> !DesiredIsStale(norm, policy)
  {
    KeepAll(observed.path, NotStale(norm, policy));
    PlannedPathIsIdle(norm, policy, observed.path);
  }

  lemma PlannedPathIsIdle(norm: Spelling, policy: Policy, path: seq<string>)
    ensures !PathChanges(norm, policy, PlannedPath(norm, policy, path)) <==> !DesiredIsStale(norm, policy)
  {
    var keep := NotStale(norm, policy);
    var kept := WithoutStale(norm, policy, path);
    KeepAll(kept, keep);
    if Settled(norm, policy, kept) {
      assert policy.desiredBin != "" ==> keep(kept[0]);
    } else {
      LeadingPathIsIdle(norm, policy, kept);
    }
  }

  lemma LeadingPathIsIdle(norm: Spelling, policy: Policy, kept: seq<string>)
    requires policy.desiredBin != ""
    requires forall i :: 0 <= i < |kept| ==> NotStale(norm, policy)(kept[i])
    ensures var planned := [policy.desiredBin] + Keep(kept, NotDesired(norm, policy));
            !PathChanges(norm, policy, planned) <==> !DesiredIsStale(norm, policy)
  {
    var keep := NotStale(norm, policy);
    var rest := Keep(kept, NotDesired(norm, policy));
    RestStaysKept(kept, keep, NotDesired(norm, policy));
    KeepAll(rest, keep);
    KeepAppend([policy.desiredBin], rest, keep);
    assert Keep([policy.desiredBin], keep) == if keep(policy.desiredBin) then [policy.desiredBin] else [];
    assert |Keep([policy.desiredBin] + rest, keep)| == |rest| + if keep(policy.desiredBin) then 1 else 0;
  }

  lemma RestStaysKept(entries: seq<string>, keep: string -> bool, other: string -> bool)
    requires forall i :: 0 <= i < |entries| ==> keep(entries[i])
    ensures forall i :: 0 <= i < |Keep(entries, other)| ==> keep(Keep(entries, other)[i])
  {
    if entries != [] {
      RestStaysKept(entries[1..], keep, other);
    }
  }

  /** A list that has to be led by the desired bin has it once: no later entry is the same directory. */
  lemma DesiredLeadsOnce(norm: Spelling, policy: Policy, observed: Env)
    requires policy.desiredBin != "" && !Leads(norm, WithoutStale(norm, policy, observed.path), policy.desiredBin)
    ensures var path := PlanFor(norm, policy, observed).path;
            && path != [] && path[0] == policy.desiredBin
            && forall i :: 0 < i < |path| ==> norm(path[i]) != norm(policy.desiredBin)
  {
    var rest := Keep(WithoutStale(norm, policy, observed.path), NotDesired(norm, policy));
    forall i | 0 <= i < |rest| ensures norm(rest[i]) != norm(policy.desiredBin) {
      assert NotDesired(norm, policy)(rest[i]);
    }
  }

  /** Entries that are neither stale nor the desired bin. */
  function Foreign(norm: Spelling, policy: Policy): string -> bool {
    e => !Stale(norm, policy, e) && !SamePath(norm, e, policy.desiredBin)
  }

  /** A plan keeps every foreign entry, in order and with its multiplicity, and invents none. */
  lemma PlanKeepsForeignEntries(norm: Spelling, policy: Policy, observed: Env)
    ensures Keep(PlanFor(norm, policy, observed).path, Foreign(norm, policy)) ==
              Keep(observed.path, Foreign(norm, policy))
  {
    var kept := Keep(observed.path, NotStale(norm, policy));
    KeepTwice(observed.path, Foreign(norm, policy), NotStale(norm, policy));
    if policy.desiredBin != "" && !Leads(norm, kept, policy.desiredBin) {
      var rest := Keep(kept, NotDesired(norm, policy));
      KeepTwice(kept, Foreign(norm, policy), NotDesired(norm, policy));
      KeepAppend([policy.desiredBin], rest, Foreign(norm, policy));
      assert Keep([policy.desiredBin], Foreign(norm, policy)) == [];
    }
  }

  /** Without leave to remove stale bins a plan drops nothing but other spellings of the desired bin. */
  lemma NothingDroppedWithoutLeave(norm: Spelling, policy: Policy, observed: Env)
    requires !policy.allowRemoveStale
    ensures Keep(PlanFor(norm, policy, observed).path, NotDesired(norm, policy)) ==
              Keep(observed.path, NotDesired(norm, policy))
  {
    PlanKeepsForeignEntries(norm, policy, observed);
    KeepTwice(PlanFor(norm, policy, observed).path, NotDesired(norm, policy), Foreign(norm, policy));
    KeepTwice(observed.path, NotDesired(norm, policy), Foreign(norm, policy));
  }

  /** The changed flag tells the truth except for a stale desired bin that already leads alone. */
  lemma ChangedFlagIsExact(norm: Spelling, policy: Policy, observed: Env)
    ensures var plan := PlanFor(norm, policy, observed);
            (plan.pathChanged <==> plan.path != observed.path)
            <==>
            !(DesiredIsStale(norm, policy)
              && observed.path == [policy.desiredBin] + Keep(observed.path, NotStale(norm, policy)))
  {
    var keep := NotStale(norm, policy);
    var kept := Keep(observed.path, keep);
    KeepAll(observed.path, keep);
    if policy.desiredBin != "" && !Leads(norm, kept, policy.desiredBin) {
      var rest := Keep(kept, NotDesired(norm, policy));
      if DesiredIsStale(norm, policy) {
        KeptAreNotDesired(norm, policy, observed.path);
        KeepAll(kept, NotDesired(norm, policy));
        assert rest == kept;
      }
    }
  }

  /** Two spellings of one bin directory. */
  function OneSpelling(): Spelling {
    s => if s == "BIN" then "bin" else s
  }

  /**
   * The flag can be wrong: the desired bin alone on the PATH, and a removable bin the platform takes for the same
   * directory. The entry is dropped and put back, the flag is set, and the list is what it was.
   */
  lemma ChangedFlagCanBeWrong()
    ensures var policy, observed := Policy("", "bin", {"BIN"}, true), Env("", ["bin"]);
            var plan := PlanFor(OneSpelling(), policy, observed);
            plan.pathChanged && plan.path == observed.path
  {
    var norm, policy := OneSpelling(), Policy("", "bin", {"BIN"}, true);
    assert SamePath(norm, "bin", "BIN") && "BIN" in policy.removableBins;
    assert Stale(norm, policy, "bin");
    assert WithoutStale(norm, policy, ["bin"]) == [];
    assert PlannedPath(norm, policy, ["bin"]) == ["bin"];
  }

  /** The same input shows that planning again need not be idle. */
  lemma ReplanCanChange()
    ensures var policy, observed := Policy("", "bin", {"BIN"}, true), Env("", ["bin"]);
            var after := Apply(PlanFor(OneSpelling(), policy, observed), observed);
            PlanFor(OneSpelling(), policy, after).pathChanged
  {
    ChangedFlagCanBeWrong();
  }

  lemma KeptAreNotDesired(norm: Spelling, policy: Policy, entries: seq<string>)
    requires DesiredIsStale(norm, policy)
    ensures forall i :: 0 <= i < |Keep(entries, NotStale(norm, policy))| ==>
              NotDesired(norm, policy)(Keep(entries, NotStale(norm, policy))[i])
  {
    var kept := Keep(entries, NotStale(norm, policy));
    forall i | 0 <= i < |kept| ensures NotDesired(norm, policy)(kept[i]) {
      assert NotStale(norm, policy)(kept[i]);
    }
  }

  // ---------------------------------------------------------------- the loops of the source

  method DropStale(norm: Spelling, policy: Policy, path: seq<string>) returns (kept: seq<string>, changed: bool)
    ensures kept == WithoutStale(norm, policy, path)
    ensures changed <==> |kept| < |path|
  {
    kept, changed := [], false;
    for i := 0 to |path|
      invariant kept == Keep(path[..i], NotStale(norm, policy))
      invariant changed <==> |kept| < i
    {
      KeepPrefix(path, i, NotStale(norm, policy));
      if Stale(norm, policy, path[i]) {
        changed := true;
      } else {
        kept := kept + [path[i]];
      }
    }
    assert path[..|path|] == path;
  }

  method DropDesired(norm: Spelling, policy: Policy, kept: seq<string>) returns (without: seq<string>)
    ensures without == Keep(kept, NotDesired(norm, policy))
  {
    without := [];
    for i := 0 to |kept|
      invariant without == Keep(kept[..i], NotDesired(norm, policy))
    {
      KeepPrefix(kept, i, NotDesired(norm, policy));
      if !SamePath(norm, kept[i], policy.desiredBin) {
        without := without + [kept[i]];
      }
    }
    assert kept[..|kept|] == kept;
  }

  method ComputeEnvironmentPlan(norm: Spelling, policy: Policy, observed: Env) returns (plan: Plan)
    ensures plan == PlanFor(norm, policy, observed)
  {
    var setHome := policy.home != "" && !SamePath(norm, observed.home, policy.home);
    var kept, changed := DropStale(norm, policy, observed.path);
    if policy.desiredBin == "" || Leads(norm, kept, policy.desiredBin) {
      return Plan(policy.home, setHome, kept, changed, policy.desiredBin);
    }
    var without := DropDesired(norm, policy, kept);
    plan := Plan(policy.home, setHome, [policy.desiredBin] + without, true, policy.desiredBin);
  }

  lemma KeepPrefix(entries: seq<string>, i: nat, keep: string -> bool)
    requires i < |entries|
    ensures Keep(entries[..i + 1], keep) == Keep(entries[..i], keep) + if keep(entries[i]) then [entries[i]] else []
  {
    assert entries[..i + 1] == entries[..i] + [entries[i]];
    KeepAppend(entries[..i], [entries[i]], keep);
    assert Keep([entries[i]], keep) == if keep(entries[i]) then [entries[i]] else [];
  }
}
