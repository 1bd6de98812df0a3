/** cmd/migrate/main.go: the migration runner, interrupted and restarted at any point. What a
    script does to the schema is arbitrary, but it depends only on the schema and the script. */
module Migrations {
  import opened Basics

  const SUFFIX := ".up.sql"

  /** A migration file as a run finds it: the version that strings.TrimSuffix finds in its name, and its
      text. */
  datatype File = File(version: string, script: string)

  function Name(file: File): string { file.version + SUFFIX }

  /** The schema and the rows of schema_migrations, in the order they were inserted. The table has only
      the versions; the text that a version was applied with is history. */
  datatype Db<+S> = Db(schema: S, record: seq<File>)

  function Versions(files: seq<File>): seq<string>
  {
    seq(|files|, i requires 0 <= i < |files| => files[i].version)
  }

  lemma VersionsConcat(a: seq<File>, b: seq<File>)
    ensures Versions(a + b) == Versions(a) + Versions(b)
  {
  }

  type Exec<!S> = (S, string) -> Option<S>

  /** The byte order of sort.Strings. */
  predicate Less(a: string, b: string) {
    b != "" && (a == "" || a[0] < b[0] || (a[0] == b[0] && Less(a[1..], b[1..])))
  }

  /** The strings agree up to `k`, where `a` ends or has the smaller character. */
  predicate Precedes(a: string, b: string, k: nat) {
    k < |b| && k <= |a| && a[..k] == b[..k] && (k == |a| || a[k] < b[k])
  }

  lemma PrecedesTail(a: string, b: string, k: nat)
    requires a != [] && b != [] && a[0] == b[0]
    ensures Precedes(a, b, k + 1) <==> Precedes(a[1..], b[1..], k)
  {
    if k < |b| - 1 && k <= |a| - 1 {
      assert a[..k + 1] == [a[0]] + a[1..][..k] && b[..k + 1] == [b[0]] + b[1..][..k];
    }
  }

  /** The order is decided at the first difference, and a prefix comes before what it begins. */
  lemma {:induction false} FirstDifferenceDecides(a: string, b: string)
    ensures Less(a, b) <==> exists k: nat :: Precedes(a, b, k)
  {
    if a != [] && b != [] && a[0] == b[0] {
      FirstDifferenceDecides(a[1..], b[1..]);
      if k: nat :| Precedes(a[1..], b[1..], k) { PrecedesTail(a, b, k); }
      if k: nat :| Precedes(a, b, k) {
        assert k > 0;
        PrecedesTail(a, b, k - 1);
      }
    } else if Less(a, b) {
      assert Precedes(a, b, 0);
    }
  }

  /** What filepath.Glob and sort.Strings give: migration files, in increasing order. */
  ghost predicate Listing(files: seq<File>) {
    forall i, j | 0 <= i < j < |files| :: Less(Name(files[i]), Name(files[j]))
  }

  /** The repository's own files, with whatever texts, are such a listing. */
  lemma ShippedFiles(a: string, b: string)
    ensures var files := [File("001_create_notifications", a), File("002_create_templates", b)];
            && Name(files[0]) == "001_create_notifications.up.sql" && Name(files[1]) == "002_create_templates.up.sql"
            && Listing(files)
  {
    var (x, y) := ("001_create_notifications" + SUFFIX, "002_create_templates" + SUFFIX);
    assert x == "001_create_notifications.up.sql" && y == "002_create_templates.up.sql";
    assert x[..2] == ['0', '0'] && y[..2] == ['0', '0'] && Precedes(x, y, 2);
    FirstDifferenceDecides(x, y);
  }

  // ---------------------------------------------------------------- one file, and a list of them

  /** The loop body for one file, when it is not interrupted. */
  function MigrateOne<S(!new)>(exec: Exec<S>, db: Db<S>, file: File): Option<Db<S>>
  {
    if file.version in Versions(db.record) then Some(db)
    else match exec(db.schema, file.script)
      case None => None
      case Some(schema) => Some(Db(schema, db.record + [file]))
  }

  function MigrateAll<S(!new)>(exec: Exec<S>, db: Db<S>, files: seq<File>): Option<Db<S>>
  {
    if files == [] then Some(db)
    else match MigrateAll(exec, db, files[..|files| - 1])
      case None => None
      case Some(d) => MigrateOne(exec, d, files[|files| - 1])
  }

  /** The scripts of the files, one after the other. */
  function ApplyAll<S(!new)>(exec: Exec<S>, schema: S, files: seq<File>): Option<S> {
    if files == [] then Some(schema)
    else match ApplyAll(exec, schema, files[..|files| - 1])
      case None => None
      case Some(s) => exec(s, files[|files| - 1].script)
  }

  /** Where a file's turn is cut short: a failing call, or the death of the process, at one of its
      statements; the last is after the server's commit and before the client hears of it. */
  datatype Stop = Goes | AtCheck | AtScript | AtRecord | AtCommit | Unheard

  /** Only the check matters for a file that is recorded already. */
  predicate Cuts(stop: Stop, recorded: bool) {
    stop == AtCheck || (!recorded && stop != Goes)
  }

  predicate CutsBefore(stop: Stop, recorded: bool) {
    Cuts(stop, recorded) && stop != Unheard
  }

  class Migrator<S(!new)> {
    const exec: Exec<S>
    var db: Db<S>

    constructor (exec: Exec<S>, schema: S)
      ensures this.exec == exec && db == Db(schema, [])
    {
      this.exec, this.db := exec, Db(schema, []);
    }

    /** One run of the program; `stops` says where each file's turn is cut short, if it is. It
        finishes exactly if nothing cuts it short, and otherwise stops at the first file that does. */
    method Run(files: seq<File>, stops: nat -> Stop) returns (finished: bool, ghost reached: nat)
      requires Listing(files)
      modifies this`db
      ensures reached <= |files| && MigrateAll(exec, old(db), files[..reached]) == Some(db)
      ensures forall k | 0 <= k < reached - 1 :: !Cuts(stops(k), files[k].version in Versions(old(db).record))
      ensures if finished then
                reached == |files| && (reached > 0 ==> !Cuts(stops(reached - 1), files[reached - 1].version in Versions(old(db).record)))
              else
                || (reached > 0 && stops(reached - 1) == Unheard && files[reached - 1].version !in Versions(old(db).record))
                || (reached < |files| && (CutsBefore(stops(reached), files[reached].version in Versions(old(db).record))
                                          || MigrateOne(exec, db, files[reached]).None?))
    {
      reached := 0;
      for i := 0 to |files|
        invariant reached == i && MigrateAll(exec, old(db), files[..i]) == Some(db)
        invariant forall k | 0 <= k < i :: !Cuts(stops(k), files[k].version in Versions(old(db).record))
        invariant forall k | i <= k < |files| :: files[k].version in Versions(db.record) <==> files[k].version in Versions(old(db).record)
      {
        assert files[..i + 1][..i] == files[..i];
        var version := files[i].version;
        if stops(i) == AtCheck { return false, i; }                    // SELECT EXISTS
        if version in Versions(db.record) { reached := i + 1; continue; }
        if stops(i) == AtScript { return false, i; }                   // ReadFile, Begin or Exec
        var tx := db;
        var result := exec(tx.schema, files[i].script);
        if result.None? { return false, i; }                           // Rollback
        tx := tx.(schema := result.value);
        if stops(i) == AtRecord { return false, i; }                   // INSERT, Rollback
        VersionsConcat(tx.record, [files[i]]);
        tx := tx.(record := tx.record + [files[i]]);
        if stops(i) == AtCommit { return false, i; }                   // the commit did not happen
        forall k | i < k < |files| ensures files[k].version != version { ListingVersionsDiffer(files, i, k); }
        db := tx;
        reached := i + 1;
        if stops(i) == Unheard { return false, i + 1; }                // it did, unheard
      }
      assert files[..|files|] == files;
      return true, |files|;
    }
  }

  // ---------------------------------------------------------------- what a run records

  /** The files that a database with these versions has still to apply, in order. */
  function Unrecorded(versions: seq<string>, files: seq<File>): seq<File>
  {
    if files == [] then [] else
      var n := |files| - 1;
      Unrecorded(versions, files[..n]) + if files[n].version in versions then [] else [files[n]]
  }

  lemma {:induction false} LessIsStrict(a: string)
    ensures !Less(a, a)
  {
    if a != "" { LessIsStrict(a[1..]); }
  }

  lemma ListingVersionsDiffer(files: seq<File>, i: nat, j: nat)
    requires Listing(files) && i < j < |files|
    ensures files[i].version != files[j].version
  {
    LessIsStrict(Name(files[i]));
  }

  lemma {:induction false} UnrecordedMembers(versions: seq<string>, files: seq<File>)
    ensures var left := Unrecorded(versions, files);
            && (forall k | 0 <= k < |left| :: left[k] in files && left[k].version !in versions)
            && (forall k | 0 <= k < |files| :: files[k] in left || files[k].version in versions)
  {
    if files != [] {
      var n := |files| - 1;
      UnrecordedMembers(versions, files[..n]);
      assert files == files[..n] + [files[n]];
    }
  }

  lemma {:induction false} UnrecordedFiles(versions: seq<string>, files: seq<File>)
    requires Listing(files)
    ensures var left := Unrecorded(versions, files);
            && Listing(left)
            && (forall k | 0 <= k < |left| :: left[k] in files && left[k].version !in versions)
            && (forall k | 0 <= k < |files| :: files[k] in left || files[k].version in versions)
  {
    UnrecordedMembers(versions, files);
    if files != [] {
      var n := |files| - 1;
      UnrecordedFiles(versions, files[..n]);
      var left := Unrecorded(versions, files[..n]);
      forall k | 0 <= k < |left| ensures Less(Name(left[k]), Name(files[n])) {
        var i :| 0 <= i < n && files[..n][i] == left[k];
        assert files[i] == left[k];
      }
    }
  }

  lemma TakeLast(files: seq<File>, k: nat)
    requires k < |files|
    ensures files[k..] == files[..|files| - 1][k..] + [files[|files| - 1]]
  {
  }

  /** Files that are all recorded, or none of them. */
  lemma {:induction false} UnrecordedSplit(versions: seq<string>, files: seq<File>, k: nat)
    requires k <= |files|
    requires forall i | 0 <= i < k :: files[i].version in versions
    requires forall i | k <= i < |files| :: files[i].version !in versions
    ensures Unrecorded(versions, files) == files[k..]
  {
    if files != [] {
      var n := |files| - 1;
      var front := files[..n];
      assert forall i | 0 <= i < n :: front[i] == files[i];
      UnrecordedSplit(versions, front, if k <= n then k else n);
      if k <= n { TakeLast(files, k); }
    }
  }

  lemma ApplyOneMore<S(!new)>(exec: Exec<S>, schema: S, files: seq<File>, file: File)
    ensures ApplyAll(exec, schema, files + [file])
            == match ApplyAll(exec, schema, files) case None => None case Some(s) => exec(s, file.script)
  {
    assert (files + [file])[..|files|] == files;
  }

  /** Between the two databases the scripts of `left` were applied and recorded, one by one. */
  ghost predicate Applied<S(!new)>(exec: Exec<S>, db: Db<S>, d: Db<S>, left: seq<File>) {
    d.record == db.record + left && ApplyAll(exec, db.schema, left) == Some(d.schema)
  }

  lemma AppliedOneMore<S(!new)>(
    exec: Exec<S>, db: Db<S>, d: Db<S>, left: seq<File>, file: File)
    requires Applied(exec, db, d, left) && MigrateOne(exec, d, file).Some?
    requires forall k | 0 <= k < |left| :: left[k].version != file.version
    ensures Applied(exec, db, MigrateOne(exec, d, file).value,
                    left + if file.version in Versions(db.record) then [] else [file])
  {
    VersionsConcat(db.record, left);
    assert file.version in Versions(d.record) <==> file.version in Versions(db.record) by {
      assert forall k | 0 <= k < |left| :: Versions(left)[k] == left[k].version;
    }
    if file.version in Versions(db.record) {
      assert left + [] == left;
    } else {
      ApplyOneMore(exec, db.schema, left, file);
      assert Versions(left + [file]) == Versions(left) + [file.version];
    }
  }

  lemma UnrecordedDiffer(versions: seq<string>, files: seq<File>, n: nat)
    requires Listing(files) && n < |files|
    ensures forall k | 0 <= k < |Unrecorded(versions, files[..n])| :: Unrecorded(versions, files[..n])[k].version != files[n].version
  {
    var left := Unrecorded(versions, files[..n]);
    UnrecordedFiles(versions, files[..n]);
    forall k | 0 <= k < |left| ensures left[k].version != files[n].version {
      var i :| 0 <= i < n && files[..n][i] == left[k];
      ListingVersionsDiffer(files, i, n);
    }
  }

  /** A run that gets through its files applies exactly the unrecorded ones, each once and in
      order, and records each with its script. */
  lemma {:induction false} RunAppliesTheRest<S(!new)>(
    exec: Exec<S>, db: Db<S>, files: seq<File>)
    requires Listing(files) && MigrateAll(exec, db, files).Some?
    ensures Applied(exec, db, MigrateAll(exec, db, files).value, Unrecorded(Versions(db.record), files))
  {
    if files == [] {
      assert Versions([]) == [];
    } else {
      var n := |files| - 1;
      RunAppliesTheRest(exec, db, files[..n]);
      UnrecordedDiffer(Versions(db.record), files, n);
      AppliedOneMore(exec, db, MigrateAll(exec, db, files[..n]).value, Unrecorded(Versions(db.record), files[..n]), files[n]);
    }
  }

  // ---------------------------------------------------------------- any number of runs

  /** A run over the files that were there at the time, and how many of them it got through. */
  datatype Attempt = Attempt(files: seq<File>, reached: nat)

  ghost predicate Attempts(attempts: seq<Attempt>) {
    forall a | 0 <= a < |attempts| :: attempts[a].reached <= |attempts[a].files| && Listing(attempts[a].files)
  }

  ghost function After<S(!new)>(exec: Exec<S>, schema: S, attempts: seq<Attempt>): Option<Db<S>>
    requires Attempts(attempts)
  {
    if attempts == [] then Some(Db(schema, []))
    else
      var last := attempts[|attempts| - 1];
      match After(exec, schema, attempts[..|attempts| - 1])
      case None => None
      case Some(db) => MigrateAll(exec, db, last.files[..last.reached])
  }

  lemma {:induction false} ApplyConcat<S(!new)>(exec: Exec<S>, schema: S, a: seq<File>, b: seq<File>)
    requires ApplyAll(exec, schema, a).Some?
    ensures ApplyAll(exec, schema, a + b) == ApplyAll(exec, ApplyAll(exec, schema, a).value, b)
  {
    if b == [] {
      assert a + b == a;
    } else {
      assert (a + b)[..|a + b| - 1] == a + b[..|b| - 1];
      ApplyConcat(exec, schema, a, b[..|b| - 1]);
    }
  }

  /** The database is the recorded scripts applied to `schema`, once each, in recorded order. */
  ghost predicate Replays<S(!new)>(exec: Exec<S>, schema: S, db: Db<S>) {
    Distinct(Versions(db.record)) && ApplyAll(exec, schema, db.record) == Some(db.schema)
  }

  lemma RunKeepsReplay<S(!new)>(exec: Exec<S>, schema: S, db: Db<S>, files: seq<File>)
    requires Replays(exec, schema, db) && Listing(files) && MigrateAll(exec, db, files).Some?
    ensures Replays(exec, schema, MigrateAll(exec, db, files).value)
  {
    RunAppliesTheRest(exec, db, files);
    NewVersionsDistinct(Versions(db.record), files);
    ReplayExtends(exec, schema, db, MigrateAll(exec, db, files).value, Unrecorded(Versions(db.record), files));
  }

  lemma ReplayExtends<S(!new)>(exec: Exec<S>, schema: S, db: Db<S>, d: Db<S>, left: seq<File>)
    requires Replays(exec, schema, db) && Applied(exec, db, d, left)
    requires Distinct(Versions(db.record) + Versions(left))
    ensures Replays(exec, schema, d)
  {
    VersionsConcat(db.record, left);
    ApplyConcat(exec, schema, db.record, left);
  }

  lemma NewVersionsDistinct(versions: seq<string>, files: seq<File>)
    requires Distinct(versions) && Listing(files)
    ensures Distinct(versions + Versions(Unrecorded(versions, files)))
  {
    var left := Unrecorded(versions, files);
    UnrecordedFiles(versions, files);
    forall i, j | 0 <= i < j < |left| ensures left[i].version != left[j].version { ListingVersionsDiffer(left, i, j); }
  }

  /** The files that an attempt got through. */
  function Through(attempt: Attempt): seq<File>
    requires attempt.reached <= |attempt.files|
  {
    attempt.files[..attempt.reached]
  }

  /** Some attempt got through a file of this version. */
  ghost predicate Reached(attempts: seq<Attempt>, version: string)
    requires Attempts(attempts)
  {
    exists a :: 0 <= a < |attempts| && version in Versions(Through(attempts[a]))
  }

  /** The file with its version and its text is what the first attempt to get through it found. */
  ghost predicate FoundFirst(attempts: seq<Attempt>, file: File)
    requires Attempts(attempts)
  {
    exists a :: 0 <= a < |attempts| && file in Through(attempts[a]) && !Reached(attempts[..a], file.version)
  }

  lemma ReachedMore(attempts: seq<Attempt>, version: string)
    requires attempts != [] && Attempts(attempts)
    ensures var (front, last) := (attempts[..|attempts| - 1], attempts[|attempts| - 1]);
            Reached(attempts, version) <==> Reached(front, version) || version in Versions(Through(last))
  {
    var (n, front) := (|attempts| - 1, attempts[..|attempts| - 1]);
    if Reached(attempts, version) {
      var a :| 0 <= a < |attempts| && version in Versions(Through(attempts[a]));
      if a < n { assert front[a] == attempts[a]; }
    }
    if Reached(front, version) {
      var a :| 0 <= a < |front| && version in Versions(Through(front[a]));
      assert front[a] == attempts[a];
    }
  }

  lemma FoundMore(attempts: seq<Attempt>, file: File)
    requires attempts != [] && Attempts(attempts)
    ensures var (front, last) := (attempts[..|attempts| - 1], attempts[|attempts| - 1]);
            FoundFirst(attempts, file) <==> FoundFirst(front, file) || (file in Through(last) && !Reached(front, file.version))
  {
    var (n, front) := (|attempts| - 1, attempts[..|attempts| - 1]);
    if FoundFirst(attempts, file) {
      var a :| 0 <= a < |attempts| && file in Through(attempts[a]) && !Reached(attempts[..a], file.version);
      if a < n { assert front[a] == attempts[a] && front[..a] == attempts[..a]; }
    }
    if FoundFirst(front, file) {
      var a :| 0 <= a < |front| && file in Through(front[a]) && !Reached(front[..a], file.version);
      assert front[a] == attempts[a] && front[..a] == attempts[..a];
    }
  }

  lemma InVersions(files: seq<File>, version: string)
    ensures version in Versions(files) <==> exists f :: f in files && f.version == version
  {
    if version in Versions(files) {
      var i :| 0 <= i < |files| && Versions(files)[i] == version;
      assert files[i] in files;
    }
    if f :| f in files && f.version == version {
      var i :| 0 <= i < |files| && files[i] == f;
      assert Versions(files)[i] == version;
    }
  }

  lemma {:induction false} InUnrecorded(versions: seq<string>, files: seq<File>, file: File)
    ensures file in Unrecorded(versions, files) <==> file in files && file.version !in versions
  {
    if files != [] {
      var n := |files| - 1;
      InUnrecorded(versions, files[..n], file);
      assert files == files[..n] + [files[n]];
    }
  }

  /** What the record holds after one more run. */
  lemma RunRecords<S(!new)>(exec: Exec<S>, db: Db<S>, files: seq<File>, file: File)
    requires Listing(files) && MigrateAll(exec, db, files).Some?
    ensures var d := MigrateAll(exec, db, files).value;
            && (file in d.record <==> file in db.record || (file in files && file.version !in Versions(db.record)))
            && (file.version in Versions(d.record) <==> file.version in Versions(db.record) || file.version in Versions(files))
  {
    var left := Unrecorded(Versions(db.record), files);
    RunAppliesTheRest(exec, db, files);
    VersionsConcat(db.record, left);
    InUnrecorded(Versions(db.record), files, file);
    InVersions(left, file.version);
    InVersions(files, file.version);
    forall f ensures f in left <==> f in files && f.version !in Versions(db.record) { InUnrecorded(Versions(db.record), files, f); }
  }

  lemma {:induction false} RecordHolds<S(!new)>(exec: Exec<S>, schema: S, attempts: seq<Attempt>, file: File)
    requires Attempts(attempts) && After(exec, schema, attempts).Some?
    ensures var record := After(exec, schema, attempts).value.record;
            && (file.version in Versions(record) <==> Reached(attempts, file.version))
            && (file in record <==> FoundFirst(attempts, file))
  {
    if attempts != [] {
      var (front, last) := (attempts[..|attempts| - 1], attempts[|attempts| - 1]);
      RecordHolds(exec, schema, front, file);
      RunRecords(exec, After(exec, schema, front).value, Through(last), file);
      ReachedMore(attempts, file.version);
      FoundMore(attempts, file);
    }
  }

  /** After any sequence of runs, each cut off anywhere and over whatever files, with whatever texts,
      were there at the time, the database is exactly the recorded scripts applied to the first schema,
      once each, in the order in which they are recorded; and the script of a recorded version is the one
      that the first run to get through that version found. */
  lemma DatabaseReplaysItsRecord<S(!new)>(exec: Exec<S>, schema: S, attempts: seq<Attempt>)
    requires Attempts(attempts) && After(exec, schema, attempts).Some?
    ensures Replays(exec, schema, After(exec, schema, attempts).value)
    ensures forall file :: file in After(exec, schema, attempts).value.record <==> FoundFirst(attempts, file)
  {
    RunsKeepReplay(exec, schema, attempts);
    forall file ensures file in After(exec, schema, attempts).value.record <==> FoundFirst(attempts, file) {
      RecordHolds(exec, schema, attempts, file);
    }
  }

  lemma {:induction false} RunsKeepReplay<S(!new)>(exec: Exec<S>, schema: S, attempts: seq<Attempt>)
    requires Attempts(attempts) && After(exec, schema, attempts).Some?
    ensures Replays(exec, schema, After(exec, schema, attempts).value)
  {
    if attempts == [] {
      assert Versions([]) == [];
    } else {
      var last := attempts[|attempts| - 1];
      RunsKeepReplay(exec, schema, attempts[..|attempts| - 1]);
      RunKeepsReplay(exec, schema, After(exec, schema, attempts[..|attempts| - 1]).value, last.files[..last.reached]);
    }
  }

  /** The same migrations each time, whatever their texts. */
  ghost predicate SameFiles(attempts: seq<Attempt>, files: seq<File>) {
    forall a | 0 <= a < |attempts| :: Versions(attempts[a].files) == Versions(files)
  }

  /** The furthest that any attempt got. */
  function Furthest(attempts: seq<Attempt>): nat {
    if attempts == [] then 0 else
      var (front, last) := (Furthest(attempts[..|attempts| - 1]), attempts[|attempts| - 1].reached);
      if front < last then last else front
  }

  lemma RunExtendsPrefix<S(!new)>(exec: Exec<S>, db: Db<S>, files: seq<File>, k: nat, n: nat)
    requires Listing(files) && k <= |files| && n <= |files| && Versions(db.record) == Versions(files)[..k]
    requires MigrateAll(exec, db, files[..n]).Some?
    ensures Versions(MigrateAll(exec, db, files[..n]).value.record) == Versions(files)[..if k < n then n else k]
  {
    RunAppliesTheRest(exec, db, files[..n]);
    PrefixExtends(files, k, n);
  }

  lemma PrefixExtends(files: seq<File>, k: nat, n: nat)
    requires Listing(files) && k <= |files| && n <= |files|
    ensures var versions := Versions(files)[..k];
            versions + Versions(Unrecorded(versions, files[..n])) == Versions(files)[..if k < n then n else k]
  {
    RecordedPrefix(files, k, n);
    if k <= n {
      assert Versions(files)[..k] + Versions(files[k..n]) == Versions(files)[..n];
    } else {
      assert Versions(files)[..k] + Versions([]) == Versions(files)[..k];
    }
  }

  /** Over a fixed set of migrations the record is always a prefix of the sorted list, as long as the
      furthest any run got; so a finished run has recorded all of them. */
  lemma {:induction false} RecordIsAPrefix<S(!new)>(
    exec: Exec<S>, schema: S, attempts: seq<Attempt>, files: seq<File>)
    requires Attempts(attempts) && SameFiles(attempts, files) && Listing(files)
    requires After(exec, schema, attempts).Some?
    ensures Furthest(attempts) <= |files|
    ensures Versions(After(exec, schema, attempts).value.record) == Versions(files)[..Furthest(attempts)]
  {
    if attempts != [] {
      var front, last := attempts[..|attempts| - 1], attempts[|attempts| - 1];
      RecordIsAPrefix(exec, schema, front, files);
      assert |last.files| == |Versions(last.files)| == |files|;
      RunExtendsPrefix(exec, After(exec, schema, front).value, last.files, Furthest(front), last.reached);
    }
  }

  lemma RecordedPrefix(files: seq<File>, k: nat, n: nat)
    requires Listing(files) && k <= |files| && n <= |files|
    ensures Unrecorded(Versions(files)[..k], files[..n]) == if k <= n then files[k..n] else []
  {
    var versions, m := Versions(files)[..k], if k <= n then k else n;
    forall i | 0 <= i < m ensures files[..n][i].version in versions { assert versions[i] == files[i].version; }
    forall i | m <= i < n ensures files[..n][i].version !in versions {
      forall j | 0 <= j < k ensures versions[j] != files[i].version { ListingVersionsDiffer(files, j, i); }
    }
    UnrecordedSplit(versions, files[..n], m);
    if k <= n { assert files[..n][k..] == files[k..n]; }
  }

  /** Once every file is recorded, a further run changes nothing. */
  lemma {:induction false} FurtherRunsChangeNothing<S(!new)>(
    exec: Exec<S>, db: Db<S>, files: seq<File>)
    requires forall i | 0 <= i < |files| :: files[i].version in Versions(db.record)
    ensures MigrateAll(exec, db, files) == Some(db)
  {
    if files != [] { FurtherRunsChangeNothing(exec, db, files[..|files| - 1]); }
  }

  // ---------------------------------------------------------------- files that come later

  ghost predicate InOrder(versions: seq<string>) {
    forall i, j | 0 <= i < j < |versions| :: Less(versions[i] + SUFFIX, versions[j] + SUFFIX)
  }

  /** The record stays in file order exactly when every file that a run newly applies sorts after
      everything recorded before. A file added later with an earlier name is applied out of order. */
  lemma RecordStaysInOrder<S(!new)>(exec: Exec<S>, db: Db<S>, files: seq<File>)
    requires Listing(files) && InOrder(Versions(db.record)) && MigrateAll(exec, db, files).Some?
    ensures InOrder(Versions(MigrateAll(exec, db, files).value.record)) <==>
            forall f, v | f in files && f.version !in Versions(db.record) && v in Versions(db.record) :: Less(v + SUFFIX, Name(f))
  {
    RunAppliesTheRest(exec, db, files);
    VersionsConcat(db.record, Unrecorded(Versions(db.record), files));
    OrderOfRecord(Versions(db.record), files, Unrecorded(Versions(db.record), files));
  }

  lemma OrderOfRecord(versions: seq<string>, files: seq<File>, left: seq<File>)
    requires Listing(files) && InOrder(versions) && left == Unrecorded(versions, files)
    ensures InOrder(versions + Versions(left)) <==>
            forall f, v | f in files && f.version !in versions && v in versions :: Less(v + SUFFIX, Name(f))
  {
    UnrecordedFiles(versions, files);
    var after := versions + Versions(left);
    if InOrder(after) {
      forall f, v | f in files && f.version !in versions && v in versions ensures Less(v + SUFFIX, Name(f)) {
        var i :| 0 <= i < |versions| && versions[i] == v;
        var k :| 0 <= k < |left| && left[k] == f;
        assert after[i] == v && after[|versions| + k] == f.version;
      }
    }
    if forall f, v | f in files && f.version !in versions && v in versions :: Less(v + SUFFIX, Name(f)) {
      OrderJoins(versions, left);
    }
  }

  lemma OrderJoins(versions: seq<string>, left: seq<File>)
    requires InOrder(versions) && Listing(left)
    requires forall f, v | f in left && v in versions :: Less(v + SUFFIX, Name(f))
    ensures InOrder(versions + Versions(left))
  {
    var after := versions + Versions(left);
    forall i, j | 0 <= i < j < |after| ensures Less(after[i] + SUFFIX, after[j] + SUFFIX) {
      if j >= |versions| {
        assert left[j - |versions|] in left && after[j] == left[j - |versions|].version;
        if i < |versions| { assert after[i] in versions; } else { assert after[i] == left[i - |versions|].version; }
      }
    }
  }
}
