// The migration runner: several processes start up together, each may fail or
// die between any two statements and be started again.
module Migrations {
  import opened Prelude

  const SUFFIX := ".up.sql"

  function TrimSuffix(name: string): string {
    if |name| >= |SUFFIX| && name[|name| - |SUFFIX|..] == SUFFIX then name[..|name| - |SUFFIX|] else name
  }

  // The embedded files all carry the suffix; `names` is their sorted list.
  predicate Embedded(names: seq<string>) {
    && (forall i :: 0 <= i < |names| ==> |names[i]| >= |SUFFIX| && names[i][|names[i]| - |SUFFIX|..] == SUFFIX)
    && (forall i, j :: 0 <= i < j < |names| ==> names[i] != names[j])
  }

  function Versions(names: seq<string>): (versions: seq<string>)
    ensures |versions| == |names|
    ensures Embedded(names) ==> forall i :: 0 <= i < |names| ==> versions[i] + ".up.sql" == names[i]
  {
    seq(|names|, i requires 0 <= i < |names| => TrimSuffix(names[i]))
  }

  predicate Distinct(versions: seq<string>) {
    forall i, j :: 0 <= i < j < |versions| ==> versions[i] != versions[j]
  }

  /** Different files are recorded under different versions. */
  lemma VersionsDistinct(names: seq<string>)
    requires Embedded(names)
    ensures Distinct(Versions(names))
  {
    forall i, j | 0 <= i < j < |names| ensures Versions(names)[i] != Versions(names)[j] {
      assert names[i] == TrimSuffix(names[i]) + SUFFIX;
      assert names[j] == TrimSuffix(names[j]) + SUFFIX;
    }
  }

  // ------------------------------------------------------------- state machine

  // Where a process stands; i is the migration it is about.
  datatype Process =
    | Creating                // about to create schema_migrations
    | Looking(i: nat)         // about to ask whether migration i is recorded
    | Opening(i: nat)         // about to begin a transaction for it
    | Executing(i: nat)       // about to run its script
    | Recording(i: nat)       // about to insert its row
    | Committing(i: nat)      // about to commit script and row
    | Returned(ok: bool)

  datatype Db = Db(
    applied: seq<string>,      // committed scripts, in commit order
    recorded: set<string>,     // committed rows of schema_migrations
    processes: map<nat, Process>)

  const EMPTY_DB := Db([], {}, map[])

  datatype Action =
    | Launch(p: nat)
    | Create(p: nat, ok: bool)
    | Look(p: nat, ok: bool)
    | Open(p: nat, ok: bool)
    | Execute(p: nat, ok: bool)
    | Insert(p: nat, ok: bool)
    | Commit(p: nat, fault: Fault)
    | Crash(p: nat)

  function Goto(db: Db, p: nat, x: Process): Db {
    db.(processes := db.processes[p := x])
  }

  // Another transaction has inserted the same key and not yet ended.
  ghost predicate KeyTaken(db: Db, i: nat) {
    exists q :: q in db.processes && db.processes[q] == Committing(i)
  }

  // An action that is not possible leaves the database as it is; so does an
  // insert that has to wait for the holder of its key.
  ghost function Apply(versions: seq<string>, db: Db, a: Action): Db {
    if a.Launch? then
      if a.p in db.processes then db else Goto(db, a.p, Creating)
    else if a.p !in db.processes then db
    else
      var x := db.processes[a.p];
      match a
      case Create(p, ok) => if !x.Creating? then db else Goto(db, p, if ok then Looking(0) else Returned(false))
      case Look(p, ok) =>
        if !x.Looking? then db
        else if x.i >= |versions| then Goto(db, p, Returned(true))
        else if !ok then Goto(db, p, Returned(false))
        else Goto(db, p, if versions[x.i] in db.recorded then Looking(x.i + 1) else Opening(x.i))
      case Open(p, ok) => if !x.Opening? then db else Goto(db, p, if ok then Executing(x.i) else Returned(false))
      case Execute(p, ok) => if !x.Executing? then db else Goto(db, p, if ok then Recording(x.i) else Returned(false))
      case Insert(p, ok) =>
        if !x.Recording? || x.i >= |versions| || KeyTaken(db, x.i) then db
        else Goto(db, p, if ok && versions[x.i] !in db.recorded then Committing(x.i) else Returned(false))
      case Commit(p, fault) =>
        if !x.Committing? || x.i >= |versions| then db
        else
          var db1 := if fault.Landed()
                     then db.(applied := db.applied + [versions[x.i]], recorded := db.recorded + {versions[x.i]})
                     else db;
          Goto(db1, p, if fault.Acked() then Looking(x.i + 1) else Returned(false))
      case Crash(p) => Goto(db, p, Returned(false))
      case _ => db
  }

  ghost function Run(versions: seq<string>, db: Db, actions: seq<Action>): Db
    decreases |actions|
  {
    if actions == [] then db else Run(versions, Apply(versions, db, actions[0]), actions[1..])
  }

  // ----------------------------------------------------------------- invariant

  function Members(s: seq<string>): set<string> { set x | x in s }

  ghost predicate InOrder(versions: seq<string>, db: Db) {
    && db.applied <= versions
    && db.recorded == Members(db.applied)
  }

  predicate InStep(versions: seq<string>, db: Db, x: Process) {
    match x
    case Creating => true
    case Looking(i) => i <= |db.applied|
    case Opening(i) => i <= |db.applied| && i < |versions|
    case Executing(i) => i <= |db.applied| && i < |versions|
    case Recording(i) => i <= |db.applied| && i < |versions|
    case Committing(i) => i == |db.applied| && i < |versions|
    case Returned(ok) => ok ==> |db.applied| == |versions|
  }

  ghost predicate Inv(versions: seq<string>, db: Db) {
    && InOrder(versions, db)
    && (forall p :: p in db.processes ==> InStep(versions, db, db.processes[p]))
    && (forall p, q | p in db.processes && q in db.processes ::
          db.processes[p].Committing? && db.processes[q].Committing? ==> p == q)
  }

  // A migration is unrecorded iff its number is not below the prefix.
  lemma RecordedIff(versions: seq<string>, db: Db, i: nat)
    requires Distinct(versions) && InOrder(versions, db) && i < |versions|
    ensures versions[i] in db.recorded <==> i < |db.applied|
  {
    if i < |db.applied| {
      assert db.applied[i] == versions[i];
    }
  }

  lemma CommitStep(versions: seq<string>, db: Db, p: nat, fault: Fault)
    requires Inv(versions, db)
    ensures Inv(versions, Apply(versions, db, Commit(p, fault)))
    ensures db.applied <= Apply(versions, db, Commit(p, fault)).applied
  {
    if p in db.processes && db.processes[p].Committing? && fault.Landed() {
      var i := db.processes[p].i;
      assert db.applied + [versions[i]] == versions[..i + 1];
      assert Members(db.applied + [versions[i]]) == Members(db.applied) + {versions[i]};
    }
  }

  // A process that moves on without a transaction of its own.
  lemma MoveStep(versions: seq<string>, db: Db, p: nat, x: Process)
    requires Inv(versions, db) && InStep(versions, db, x) && !x.Committing?
    ensures Inv(versions, Goto(db, p, x))
  {
  }

  lemma LookStep(versions: seq<string>, db: Db, p: nat, ok: bool)
    requires Distinct(versions) && Inv(versions, db)
    ensures Inv(versions, Apply(versions, db, Look(p, ok)))
  {
    if p in db.processes && db.processes[p].Looking? {
      var i := db.processes[p].i;
      assert InStep(versions, db, db.processes[p]);
      if i < |versions| { RecordedIff(versions, db, i); }
      MoveStep(versions, db, p, Apply(versions, db, Look(p, ok)).processes[p]);
    }
  }

  lemma InsertStep(versions: seq<string>, db: Db, p: nat, ok: bool)
    requires Distinct(versions) && Inv(versions, db)
    ensures Inv(versions, Apply(versions, db, Insert(p, ok)))
  {
    if p in db.processes && db.processes[p].Recording? && db.processes[p].i < |versions| {
      assert InStep(versions, db, db.processes[p]);
      RecordedIff(versions, db, db.processes[p].i);
    }
  }

  lemma OtherStep(versions: seq<string>, db: Db, a: Action)
    requires Inv(versions, db) && !(a.Look? || a.Insert? || a.Commit?)
    ensures Inv(versions, Apply(versions, db, a))
  {
    var db' := Apply(versions, db, a);
    if db' != db {
      if a.p in db.processes { assert InStep(versions, db, db.processes[a.p]); }
      MoveStep(versions, db, a.p, db'.processes[a.p]);
    }
  }

  lemma InvStep(versions: seq<string>, db: Db, a: Action)
    requires Distinct(versions) && Inv(versions, db)
    ensures Inv(versions, Apply(versions, db, a))
    ensures db.applied <= Apply(versions, db, a).applied
  {
    match a
    case Look(p, ok) => LookStep(versions, db, p, ok);
    case Insert(p, ok) => InsertStep(versions, db, p, ok);
    case Commit(p, fault) => CommitStep(versions, db, p, fault);
    case _ => OtherStep(versions, db, a);
  }

  lemma {:induction false} InvRun(versions: seq<string>, db: Db, actions: seq<Action>)
    requires Distinct(versions) && Inv(versions, db)
    ensures Inv(versions, Run(versions, db, actions))
    ensures db.applied <= Run(versions, db, actions).applied
    decreases |actions|
  {
    if actions == [] {
    } else {
      InvStep(versions, db, actions[0]);
      InvRun(versions, Apply(versions, db, actions[0]), actions[1..]);
    }
  }

  // ------------------------------------------------------------------ theorems

  /** Whatever the processes do and wherever they die: the committed scripts are
      a prefix of the sorted list, none twice, and exactly those are recorded. */
  lemma CommittedIsAPrefix(names: seq<string>, actions: seq<Action>)
    requires Embedded(names)
    ensures var db := Run(Versions(names), EMPTY_DB, actions);
            db.applied <= Versions(names) && Distinct(db.applied) && db.recorded == Members(db.applied)
  {
    VersionsDistinct(names);
    InvRun(Versions(names), EMPTY_DB, actions);
  }

  /** A run that returned without an error, at any time, means that the whole
      list is committed, then and ever after. */
  lemma SuccessMeansComplete(names: seq<string>, before: seq<Action>, after: seq<Action>, p: nat)
    requires Embedded(names)
    requires var db := Run(Versions(names), EMPTY_DB, before); p in db.processes && db.processes[p] == Returned(true)
    ensures var db := Run(Versions(names), Run(Versions(names), EMPTY_DB, before), after);
            db.applied == Versions(names)
  {
    VersionsDistinct(names);
    InvRun(Versions(names), EMPTY_DB, before);
    InvRun(Versions(names), Run(Versions(names), EMPTY_DB, before), after);
  }

  // The statement that this process runs next is rejected.
  predicate Rejects(db: Db, a: Action) {
    && !a.Launch? && a.p in db.processes
    && match a
       case Create(p, ok) => db.processes[p].Creating? && !ok
       case Look(p, ok) => db.processes[p].Looking? && !ok
       case Open(p, ok) => db.processes[p].Opening? && !ok
       case Execute(p, ok) => db.processes[p].Executing? && !ok
       case Insert(p, ok) => db.processes[p].Recording? && !ok
       case Commit(p, fault) => db.processes[p].Committing? && fault.Rejected?
       case _ => false
  }

  /** A statement that is rejected ends the run with an error and commits
      nothing; only an insert may first have to wait for the holder of its key. */
  lemma RejectionEndsTheRun(versions: seq<string>, db: Db, a: Action)
    requires Inv(versions, db) && Rejects(db, a)
    requires a.Look? ==> db.processes[a.p].i < |versions|
    ensures var db' := Apply(versions, db, a);
            || (db' == db && a.Insert? && KeyTaken(db, db.processes[a.p].i))
            || db' == db.(processes := db.processes[a.p := Returned(false)])
  {
    assert InStep(versions, db, db.processes[a.p]);
  }

  // ------------------------------------------------------- starting once more

  ghost predicate NobodyCommits(db: Db) {
    forall q :: q in db.processes ==> !db.processes[q].Committing?
  }

  lemma {:induction false} RunAppend(versions: seq<string>, db: Db, a: seq<Action>, b: seq<Action>)
    ensures Run(versions, db, a + b) == Run(versions, Run(versions, db, a), b)
    decreases |a|
  {
    if a == [] {
      assert a + b == b;
    } else {
      assert (a + b)[1..] == a[1..] + b;
      RunAppend(versions, Apply(versions, db, a[0]), a[1..], b);
    }
  }

  lemma RunOne(versions: seq<string>, db: Db, a: Action)
    ensures Run(versions, db, [a]) == Apply(versions, db, a)
  {
    assert [a][1..] == [];
  }

  // The statements of one pending migration, all of which go through.
  lemma OneMigration(versions: seq<string>, db: Db, p: nat, i: nat) returns (actions: seq<Action>)
    requires Distinct(versions) && Inv(versions, db) && NobodyCommits(db) && i < |versions|
    requires p in db.processes && db.processes[p] == Opening(i) && versions[i] !in db.recorded
    ensures var db' := Run(versions, db, actions);
            && p in db'.processes && db'.processes[p] == Looking(i + 1) && NobodyCommits(db')
  {
    var db1 := Apply(versions, db, Open(p, true));
    var db2 := Apply(versions, db1, Execute(p, true));
    var db3 := Apply(versions, db2, Insert(p, true));
    var db4 := Apply(versions, db3, Commit(p, Done));
    assert db3.processes[p] == Committing(i);
    RunOne(versions, db, Open(p, true));
    RunOne(versions, db1, Execute(p, true));
    RunOne(versions, db2, Insert(p, true));
    RunOne(versions, db3, Commit(p, Done));
    RunAppend(versions, db, [Open(p, true)], [Execute(p, true)]);
    RunAppend(versions, db, [Open(p, true)] + [Execute(p, true)], [Insert(p, true)]);
    actions := [Open(p, true)] + [Execute(p, true)] + [Insert(p, true)] + [Commit(p, Done)];
    RunAppend(versions, db, [Open(p, true)] + [Execute(p, true)] + [Insert(p, true)], [Commit(p, Done)]);
  }

  lemma {:induction false} FromLooking(versions: seq<string>, db: Db, p: nat, i: nat) returns (actions: seq<Action>)
    requires Distinct(versions) && Inv(versions, db) && NobodyCommits(db) && i <= |versions|
    requires p in db.processes && db.processes[p] == Looking(i)
    ensures var db' := Run(versions, db, actions); p in db'.processes && db'.processes[p] == Returned(true)
    decreases |versions| - i
  {
    var db1 := Apply(versions, db, Look(p, true));
    RunOne(versions, db, Look(p, true));
    InvStep(versions, db, Look(p, true));
    actions := [Look(p, true)];
    if i < |versions| {
      var db2 := db1;
      if versions[i] !in db.recorded {
        var one := OneMigration(versions, db1, p, i);
        InvRun(versions, db1, one);
        RunAppend(versions, db, actions, one);
        actions := actions + one;
        db2 := Run(versions, db1, one);
      }
      var rest := FromLooking(versions, db2, p, i + 1);
      RunAppend(versions, db, actions, rest);
      actions := actions + rest;
    }
  }

  /** Whatever earlier processes have left behind: unless one of them is about to
      commit, a further process can complete the list. */
  lemma RestartCompletes(names: seq<string>, before: seq<Action>, p: nat) returns (after: seq<Action>)
    requires Embedded(names)
    requires var db := Run(Versions(names), EMPTY_DB, before); p !in db.processes && NobodyCommits(db)
    ensures var db := Run(Versions(names), Run(Versions(names), EMPTY_DB, before), after);
            p in db.processes && db.processes[p] == Returned(true) && db.applied == Versions(names)
  {
    var versions := Versions(names);
    VersionsDistinct(names);
    var db := Run(versions, EMPTY_DB, before);
    InvRun(versions, EMPTY_DB, before);
    var db1 := Apply(versions, db, Launch(p));
    var db2 := Apply(versions, db1, Create(p, true));
    InvStep(versions, db, Launch(p));
    InvStep(versions, db1, Create(p, true));
    RunOne(versions, db, Launch(p));
    RunOne(versions, db1, Create(p, true));
    RunAppend(versions, db, [Launch(p)], [Create(p, true)]);
    var rest := FromLooking(versions, db2, p, 0);
    after := [Launch(p)] + [Create(p, true)] + rest;
    RunAppend(versions, db, [Launch(p)] + [Create(p, true)], rest);
    InvRun(versions, db, after);
  }

  // ----------------------------------------------------------- one process alone

  datatype Outcome = Outcome(look: bool, open: bool, execute: bool, insert: bool, commit: Fault)

  predicate Smooth(x: Outcome, pending: bool) {
    x.look && (pending ==> x.open && x.execute && x.insert && x.commit.Acked())
  }

  // The first migration, of those from `start` on pending, that does not go
  // through.
  predicate StopsAt(x: seq<Outcome>, start: nat, i: nat) {
    i < |x| && !Smooth(x[i], i >= start) && forall j :: 0 <= j < i ==> Smooth(x[j], j >= start)
  }

  predicate Commits(x: Outcome) {
    x.look && x.open && x.execute && x.insert && x.commit.Landed()
  }

  lemma OneMoreCommitted(versions: seq<string>, i: nat)
    requires i < |versions|
    ensures versions[..i + 1] == versions[..i] + [versions[i]]
    ensures Members(versions[..i + 1]) == Members(versions[..i]) + {versions[i]}
  {
    assert versions[..i + 1] == versions[..i] + [versions[i]];
  }

  class Database {
    var applied: seq<string>
    var recorded: set<string>

    ghost predicate Valid(versions: seq<string>)
      reads this
    {
      applied <= versions && recorded == Members(applied)
    }

    constructor ()
      ensures applied == [] && recorded == {}
    {
      applied, recorded := [], {};
    }

    // The loop body: looks whether migration i is recorded, and commits its
    // script together with its row if not.
    method MigrateOne(version: string, x: Outcome, ghost versions: seq<string>, ghost i: nat) returns (ok: bool)
      requires Distinct(versions) && Valid(versions) && i < |versions| && version == versions[i] && i <= |applied|
      modifies this
      ensures Valid(versions) && old(applied) <= applied
      ensures ok == Smooth(x, i >= |old(applied)|)
      ensures |applied| == if i == |old(applied)| && Commits(x) then i + 1 else |old(applied)|
    {
      RecordedIff(versions, Db(applied, recorded, map[]), i);
      if !x.look { return false; }
      if version in recorded { return true; }
      if !x.open || !x.execute || !x.insert { return false; }
      if x.commit.Landed() {
        OneMoreCommitted(versions, i);
        applied, recorded := applied + [version], recorded + {version};
      }
      ok := x.commit.Acked();
    }

    /** Runs the pending migrations in order. It reports success exactly when
        every statement it needed went through; it never skips or repeats one,
        and it stops at the first that does not go through. */
    method Migrate(names: seq<string>, created: bool, x: seq<Outcome>) returns (ok: bool, ghost stopped: nat)
      requires Embedded(names) && Valid(Versions(names)) && |x| == |names|
      modifies this
      ensures Valid(Versions(names)) && old(applied) <= applied
      ensures ok ==> applied == Versions(names)
      ensures ok <==> created && forall i :: 0 <= i < |names| ==> Smooth(x[i], i >= |old(applied)|)
      ensures !created ==> applied == old(applied)
      ensures created && !ok ==>
                && StopsAt(x, |old(applied)|, stopped)
                && |applied| == if stopped < |old(applied)| then |old(applied)|
                                else if Commits(x[stopped]) then stopped + 1 else stopped
    {
      stopped := 0;
      if !created { return false, 0; }
      ghost var versions := Versions(names);
      ghost var start := |applied|;
      VersionsDistinct(names);
      for i := 0 to |names|
        invariant Valid(versions) && |applied| == if i < start then start else i
        invariant old(applied) <= applied
        invariant forall j :: 0 <= j < i ==> Smooth(x[j], j >= start)
      {
        var through := MigrateOne(TrimSuffix(names[i]), x[i], versions, i);
        if !through { return false, i; }
      }
      ok := true;
    }
  }
}
