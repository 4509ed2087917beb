/** The migration runner: pending files are executed and recorded one by one, in name order,
    and the process may stop between any two statements. */
module MigrationRunner {
  import opened MigrationText

  /** A directory entry; `sql` is the up section of its content, MigrationText.UpSql. */
  datatype Entry = Entry(name: string, isDir: bool, sql: string)

  /** What has been executed against the schema, in order, and the versions table. */
  datatype Db = Db(executed: seq<string>, recorded: seq<string>)

  // ---------------------------------------------------------------- sort.Strings

  predicate LexLe(a: string, b: string) {
    a == [] || (b != [] && (a[0] < b[0] || (a[0] == b[0] && LexLe(a[1..], b[1..]))))
  }

  /** The order of the names is that of a dictionary: a beginning comes first, otherwise the first
      differing character decides. */
  lemma {:induction false} LexMeans(a: string, b: string)
    ensures LexLe(a, b) <==>
      || a <= b
      || exists i :: 0 <= i < |a| && i < |b| && a[..i] == b[..i] && a[i] < b[i]
  {
    if a != [] && b != [] && a[0] == b[0] {
      LexMeans(a[1..], b[1..]);
      assert [a[0]] + a[1..] == a && [b[0]] + b[1..] == b;
      if i :| 0 <= i < |a| && i < |b| && a[..i] == b[..i] && a[i] < b[i] {
        assert i > 0 && a[1..][..i - 1] == a[..i][1..] && b[1..][..i - 1] == b[..i][1..];
      }
      if i :| 0 <= i < |a[1..]| && i < |b[1..]| && a[1..][..i] == b[1..][..i] && a[1..][i] < b[1..][i] {
        assert a[..i + 1] == [a[0]] + a[1..][..i] && b[..i + 1] == [b[0]] + b[1..][..i];
      }
    } else if a != [] && b != [] && a[0] < b[0] {
      assert a[..0] == b[..0];
    } else if a != [] && b != [] {
      forall i | 0 < i < |a| && i < |b| ensures a[..i][0] == a[0] && b[..i][0] == b[0] {
      }
    }
  }

  lemma {:induction false} LexTotal(a: string, b: string)
    ensures LexLe(a, b) || LexLe(b, a)
    ensures LexLe(a, b) && LexLe(b, a) ==> a == b
  {
    if a != [] && b != [] && a[0] == b[0] {
      LexTotal(a[1..], b[1..]);
      assert a == [a[0]] + a[1..] && b == [b[0]] + b[1..];
    }
  }

  lemma {:induction false} LexTransitive(a: string, b: string, c: string)
    requires LexLe(a, b) && LexLe(b, c)
    ensures LexLe(a, c)
  {
    if a != [] && a[0] == b[0] && b[0] == c[0] {
      LexTransitive(a[1..], b[1..], c[1..]);
    }
  }

  ghost predicate Sorted(files: seq<Entry>) {
    forall i, k :: 0 <= i < k < |files| ==> LexLe(files[i].name, files[k].name)
  }

  function InsertFile(files: seq<Entry>, f: Entry): (r: seq<Entry>)
    ensures multiset(r) == multiset(files) + multiset{f}
  {
    if files == [] then [f]
    else if LexLe(f.name, files[0].name) then
      assert files == [files[0]] + files[1..];
      [f] + files
    else
      assert files == [files[0]] + files[1..];
      [files[0]] + InsertFile(files[1..], f)
  }

  lemma {:induction false} InsertKeepsSorted(files: seq<Entry>, f: Entry)
    requires Sorted(files)
    ensures Sorted(InsertFile(files, f))
  {
    var r := InsertFile(files, f);
    if files == [] {
    } else if LexLe(f.name, files[0].name) {
      forall k | 0 <= k < |files| ensures LexLe(f.name, files[k].name) {
        if k > 0 { LexTransitive(f.name, files[0].name, files[k].name); }
      }
    } else {
      InsertKeepsSorted(files[1..], f);
      LexTotal(f.name, files[0].name);
      forall k | 1 <= k < |r| ensures LexLe(files[0].name, r[k].name) {
        assert r[k] in multiset(InsertFile(files[1..], f));
        assert r[k] in multiset(files[1..]) || r[k] == f;
        if r[k] != f {
          assert r[k] in files[1..];
        }
      }
    }
  }

  function SortFiles(files: seq<Entry>): (r: seq<Entry>)
    ensures multiset(r) == multiset(files)
  {
    if files == [] then []
    else
      assert files == files[..|files| - 1] + [files[|files| - 1]];
      InsertFile(SortFiles(files[..|files| - 1]), files[|files| - 1])
  }

  lemma {:induction false} SortFilesSorted(files: seq<Entry>)
    ensures Sorted(SortFiles(files))
  {
    if files != [] {
      SortFilesSorted(files[..|files| - 1]);
      InsertKeepsSorted(SortFiles(files[..|files| - 1]), files[|files| - 1]);
    }
  }

  // ---------------------------------------------------------------- files and pending files

  /** A migration file as the runner sees it: its name, and whether there is anything to
      execute in its up section. */
  datatype File = File(name: string, blank: bool)

  /** strings.TrimSpace(sql) == "" (see BlankIffSpaces). */
  predicate Blank(sql: string) { sql == [] || (IsSpace(sql[0]) && Blank(sql[1..])) }

  lemma {:induction false} BlankIffSpaces(sql: string)
    ensures Blank(sql) <==> TrimSpace(sql) == []
  {
    if sql != [] && IsSpace(sql[0]) {
      BlankIffSpaces(sql[1..]);
    } else if sql != [] {
      TrimRightKeeps(sql);
    }
  }

  /** Trimming on the right never reaches a first character that is not a space. */
  lemma {:induction false} TrimRightKeeps(s: string)
    requires s != [] && !IsSpace(s[0])
    ensures TrimRight(s) != []
  {
    if |s| > 1 {
      TrimRightKeeps(s[..|s| - 1]);
    }
  }

  function FileOf(e: Entry): File { File(e.name, Blank(e.sql)) }

  function Files(entries: seq<Entry>): (files: seq<File>)
    ensures |files| == |entries|
  {
    if entries == [] then [] else Files(entries[..|entries| - 1]) + [FileOf(entries[|entries| - 1])]
  }

  lemma {:induction false} FilesAt(entries: seq<Entry>, i: nat)
    requires i < |entries|
    ensures Files(entries)[i] == FileOf(entries[i])
  {
    if i < |entries| - 1 {
      FilesAt(entries[..|entries| - 1], i);
    }
  }

  function Names(files: seq<File>): seq<string> {
    seq(|files|, i requires 0 <= i < |files| => files[i].name)
  }

  /** Each name occurs once, as in a directory. */
  ghost predicate Distinct(files: seq<File>) {
    forall i, k :: 0 <= i < k < |files| ==> files[i].name != files[k].name
  }

  predicate IsSql(e: Entry) { !e.isDir && |e.name| >= 4 && e.name[|e.name| - 4..] == ".sql" }

  function SqlFiles(listing: seq<Entry>): seq<Entry> {
    if listing == [] then []
    else SqlFiles(listing[..|listing| - 1]) + (if IsSql(listing[|listing| - 1]) then [listing[|listing| - 1]] else [])
  }

  function Pending(files: seq<File>, recorded: seq<string>): seq<File> {
    if files == [] then []
    else
      var f := files[|files| - 1];
      Pending(files[..|files| - 1], recorded) + (if f.name !in recorded then [f] else [])
  }

  function PendingEntries(entries: seq<Entry>, recorded: seq<string>): seq<Entry> {
    if entries == [] then []
    else
      var e := entries[|entries| - 1];
      PendingEntries(entries[..|entries| - 1], recorded) + (if e.name !in recorded then [e] else [])
  }

  lemma FilesAppend(entries: seq<Entry>, e: Entry)
    ensures Files(entries + [e]) == Files(entries) + [FileOf(e)]
  {
    assert (entries + [e])[..|entries|] == entries;
  }

  lemma {:induction false} PendingOfEntries(entries: seq<Entry>, recorded: seq<string>)
    ensures Files(PendingEntries(entries, recorded)) == Pending(Files(entries), recorded)
  {
    if entries != [] {
      var front, e := entries[..|entries| - 1], entries[|entries| - 1];
      PendingOfEntries(front, recorded);
      FilesAppend(front, e);
      assert entries == front + [e];
      assert Files(entries)[..|front|] == Files(front);
      if e.name !in recorded {
        FilesAppend(PendingEntries(front, recorded), e);
      } else {
        assert PendingEntries(entries, recorded) == PendingEntries(front, recorded);
      }
    }
  }

  ghost predicate InOrder(files: seq<File>) {
    forall i, k :: 0 <= i < k < |files| ==> LexLe(files[i].name, files[k].name)
  }

  /** Pending files are the unrecorded ones, each once, still in name order. */
  lemma {:induction false} PendingFacts(files: seq<File>, recorded: seq<string>)
    requires InOrder(files) && Distinct(files)
    ensures InOrder(Pending(files, recorded)) && Distinct(Pending(files, recorded))
    ensures forall f :: f in Pending(files, recorded) <==> f in files && f.name !in recorded
  {
    if files != [] {
      var front, f := files[..|files| - 1], files[|files| - 1];
      PendingFacts(front, recorded);
      var p := Pending(front, recorded);
      assert files == front + [f];
      forall i | 0 <= i < |p| ensures p[i].name != f.name && LexLe(p[i].name, f.name) {
        assert p[i] in front;
        var k :| 0 <= k < |front| && front[k] == p[i];
        assert files[k] == front[k];
      }
    }
  }

  lemma {:induction false} SqlFilesExact(listing: seq<Entry>)
    ensures forall e :: e in SqlFiles(listing) <==>
      e in listing && !e.isDir && |e.name| >= 4 && e.name[|e.name| - 4..] == ".sql"
  {
    if listing != [] {
      SqlFilesExact(listing[..|listing| - 1]);
      assert listing == listing[..|listing| - 1] + [listing[|listing| - 1]];
    }
  }

  /** A file has the name of its entry and is blank exactly when trimming leaves nothing of its up
      section. */
  lemma {:induction false} FilesMean(entries: seq<Entry>, i: nat)
    requires i < |entries|
    ensures Files(entries)[i].name == entries[i].name
    ensures Files(entries)[i].blank <==> TrimSpace(entries[i].sql) == []
  {
    FilesAt(entries, i);
    BlankIffSpaces(entries[i].sql);
  }

  lemma SortedFilesInOrder(entries: seq<Entry>)
    requires Sorted(entries)
    ensures InOrder(Files(entries))
  {
    forall i, k | 0 <= i < k < |entries| ensures LexLe(Files(entries)[i].name, Files(entries)[k].name) {
      FilesAt(entries, i);
      FilesAt(entries, k);
    }
  }

  /** The runner takes exactly the plain entries ending in ".sql", in the order of their names. */
  lemma RunnerOrder(listing: seq<Entry>)
    ensures InOrder(Files(SortFiles(SqlFiles(listing))))
    ensures forall e :: e in SortFiles(SqlFiles(listing)) <==>
      e in listing && !e.isDir && |e.name| >= 4 && e.name[|e.name| - 4..] == ".sql"
  {
    var entries := SortFiles(SqlFiles(listing));
    SqlFilesExact(listing);
    SortFilesSorted(SqlFiles(listing));
    SortedFilesInOrder(entries);
    forall e ensures e in entries <==> e in SqlFiles(listing) {
      assert e in entries <==> e in multiset(entries);
    }
  }

  // ---------------------------------------------------------------- one run

  /** The first `steps` statements of a run over the pending files: a blank file is only
      recorded, any other is executed and then recorded. */
  function Process(db: Db, pending: seq<File>, steps: nat): Db
    decreases |pending|
  {
    if pending == [] || steps == 0 then db
    else
      var f := pending[0];
      if f.blank then Process(db.(recorded := db.recorded + [f.name]), pending[1..], steps - 1)
      else if steps == 1 then db.(executed := db.executed + [f.name])
      else Process(Db(db.executed + [f.name], db.recorded + [f.name]), pending[1..], steps - 2)
  }

  /** How many statements the whole of `pending` takes. */
  function Cost(pending: seq<File>): nat {
    if pending == [] then 0 else (if pending[0].blank then 1 else 2) + Cost(pending[1..])
  }

  function ToExecute(pending: seq<File>): seq<string> {
    if pending == [] then []
    else (if pending[0].blank then [] else [pending[0].name]) + ToExecute(pending[1..])
  }

  /** `db'` is `db` after a run stopped at pending file `k`: exactly the files before it are
      newly recorded and their statements executed, and file `k` itself may have been executed
      without being recorded. */
  ghost predicate StoppedAt(db: Db, db': Db, pending: seq<File>, k: nat, half: bool) {
    && k <= |pending|
    && (half ==> k < |pending| && !pending[k].blank)
    && db'.recorded == db.recorded + Names(pending[..k])
    && db'.executed == db.executed + ToExecute(pending[..k]) + (if half then [pending[k].name] else [])
  }

  /** However many statements were carried out, the run stopped at some pending file, with at
      most that one file executed but not recorded; a run that had time for all of them
      recorded every pending file. */
  lemma {:induction false} RunStops(db: Db, pending: seq<File>, steps: nat)
    ensures exists k: nat, half ::
      StoppedAt(db, Process(db, pending, steps), pending, k, half) && (steps >= Cost(pending) ==> k == |pending|)
    decreases |pending|
  {
    assert pending != [] ==> Cost(pending) > 0;
    if pending == [] || steps == 0 {
      assert Process(db, pending, steps) == db && pending[..0] == [];
      assert StoppedAt(db, Process(db, pending, steps), pending, 0, false);
    } else {
      var f, rest := pending[0], pending[1..];
      if !f.blank && steps == 1 {
        assert StoppedAt(db, Process(db, pending, 1), pending, 0, true);
      } else {
        var mid := if f.blank then db.(recorded := db.recorded + [f.name])
                   else Db(db.executed + [f.name], db.recorded + [f.name]);
        var left := if f.blank then steps - 1 else steps - 2;
        RunStops(mid, rest, left);
        var k: nat, half :| StoppedAt(mid, Process(mid, rest, left), rest, k, half)
          && (left >= Cost(rest) ==> k == |rest|);
        StoppedFurther(db, mid, Process(mid, rest, left), pending, k, half);
        assert StoppedAt(db, Process(db, pending, steps), pending, k + 1, half);
      }
    }
  }

  lemma StoppedFurther(db: Db, mid: Db, db': Db, pending: seq<File>, k: nat, half: bool)
    requires pending != [] && StoppedAt(mid, db', pending[1..], k, half)
    requires mid.recorded == db.recorded + [pending[0].name]
    requires mid.executed == db.executed + (if pending[0].blank then [] else [pending[0].name])
    ensures StoppedAt(db, db', pending, k + 1, half)
  {
    var rest := pending[1..];
    assert pending[..k + 1][1..] == rest[..k] && pending[..k + 1][0] == pending[0];
    assert Names(pending[..k + 1]) == [pending[0].name] + Names(rest[..k]);
    if half { assert rest[k] == pending[k + 1]; }
  }

  // ---------------------------------------------------------------- many runs

  /** The state of a migration: the recorded files are exactly the first `r`, everything but
      blank files among them has been executed, and nothing beyond the next one has. */
  ghost predicate UpTo(files: seq<File>, db: Db, r: nat) {
    && r <= |files| && db.recorded == Names(files[..r])
    && (forall i :: 0 <= i < r && !files[i].blank ==> files[i].name in db.executed)
    && (forall n :: n in db.executed ==>
          exists i :: 0 <= i < |files| && i <= r && files[i].name == n && !files[i].blank)
  }

  /** A database nothing has been applied to is a start. */
  lemma FreshDatabase(files: seq<File>)
    ensures UpTo(files, Db([], []), 0)
  {
    assert Names(files[..0]) == [];
  }

  lemma RecordedIffBefore(all: seq<File>, r: nat, n: nat)
    requires Distinct(all) && r <= |all| && n < |all|
    ensures all[n].name in Names(all[..r]) <==> n < r
  {
    if n < r {
      assert Names(all[..r])[n] == all[n].name;
    } else {
      forall i | 0 <= i < r ensures Names(all[..r])[i] != all[n].name {
        assert all[i].name != all[n].name;
      }
    }
  }

  lemma {:induction false} PendingOfPrefix(all: seq<File>, n: nat, r: nat)
    requires Distinct(all) && n <= |all| && r <= |all|
    ensures Pending(all[..n], Names(all[..r])) == if r <= n then all[r..n] else []
  {
    if n > 0 {
      PendingOfPrefix(all, n - 1, r);
      RecordedIffBefore(all, r, n - 1);
      assert all[..n][..n - 1] == all[..n - 1];
      if r < n {
        assert all[r..n] == all[r..n - 1] + [all[n - 1]];
      }
    }
  }

  lemma ExecutedIn(pending: seq<File>, n: string)
    ensures n in ToExecute(pending) <==> exists i :: 0 <= i < |pending| && pending[i].name == n && !pending[i].blank
  {
    if pending != [] {
      ExecutedIn(pending[1..], n);
      forall i | 0 <= i < |pending[1..]| ensures pending[1..][i] == pending[i + 1] {
      }
    }
  }

  /** One more run, however short, moves the recorded prefix forward. */
  lemma RunAdvances(files: seq<File>, db: Db, r: nat, steps: nat)
    requires Distinct(files) && UpTo(files, db, r)
    ensures exists k: nat :: UpTo(files, Process(db, Pending(files, db.recorded), steps), k) && r <= k
    ensures steps >= Cost(Pending(files, db.recorded)) ==>
      UpTo(files, Process(db, Pending(files, db.recorded), steps), |files|)
  {
    PendingOfPrefix(files, |files|, r);
    assert files[..|files|] == files;
    var pending := files[r..];
    RunStops(db, pending, steps);
    var db' := Process(db, pending, steps);
    var k: nat, half :| StoppedAt(db, db', pending, k, half) && (steps >= Cost(pending) ==> k == |pending|);
    AdvancedBy(files, db, r, db', k, half);
    assert UpTo(files, db', r + k);
  }

  lemma AdvancedBy(files: seq<File>, db: Db, r: nat, db': Db, k: nat, half: bool)
    requires UpTo(files, db, r) && StoppedAt(db, db', files[r..], k, half)
    ensures UpTo(files, db', r + k)
  {
    var pending := files[r..];
    assert Names(files[..r + k]) == Names(files[..r]) + Names(pending[..k]);
    forall i | 0 <= i < r + k && !files[i].blank ensures files[i].name in db'.executed {
      if i >= r {
        assert pending[..k][i - r] == files[i];
        ExecutedIn(pending[..k], files[i].name);
      }
    }
    forall n | n in db'.executed
      ensures exists i :: 0 <= i < |files| && i <= r + k && files[i].name == n && !files[i].blank
    {
      if n in db.executed {
        var i :| 0 <= i < |files| && i <= r && files[i].name == n && !files[i].blank;
      } else if n in ToExecute(pending[..k]) {
        ExecutedIn(pending[..k], n);
        var i :| 0 <= i < |pending[..k]| && pending[..k][i].name == n && !pending[..k][i].blank;
        assert files[r + i].name == n;
      } else {
        assert files[r + k].name == n;
      }
    }
  }

  /** A series of runs, each cut off after some number of statements. */
  function RunAll(files: seq<File>, db: Db, budgets: seq<nat>): Db {
    if budgets == [] then db
    else
      var before := RunAll(files, db, budgets[..|budgets| - 1]);
      Process(before, Pending(files, before.recorded), budgets[|budgets| - 1])
  }

  predicate Unrecorded(db: Db, name: string) { name in db.executed && name !in db.recorded }

  /** After any number of interrupted runs over one directory the recorded files are exactly a
      prefix of the files in name order, and at most one executed file is unrecorded: the next. */
  lemma {:induction false} InterruptedRuns(files: seq<File>, db: Db, r: nat, budgets: seq<nat>)
    requires Distinct(files) && UpTo(files, db, r)
    ensures exists k: nat :: r <= k && UpTo(files, RunAll(files, db, budgets), k)
    ensures var e := RunAll(files, db, budgets);
      forall m, n :: Unrecorded(e, m) && Unrecorded(e, n) ==> m == n
  {
    if budgets == [] {
      assert r <= r && UpTo(files, db, r);
    } else {
      var front := budgets[..|budgets| - 1];
      InterruptedRuns(files, db, r, front);
      var k: nat :| r <= k && UpTo(files, RunAll(files, db, front), k);
      RunAdvances(files, RunAll(files, db, front), k, budgets[|budgets| - 1]);
    }
    var e := RunAll(files, db, budgets);
    var k: nat :| r <= k && UpTo(files, e, k);
    forall n | Unrecorded(e, n) ensures k < |files| && n == files[k].name {
      OnlyNext(files, e, k, n);
    }
  }

  // ---------------------------------------------------------------- how often a file is executed

  function Times(names: seq<string>, n: string): nat {
    if names == [] then 0 else Times(names[..|names| - 1], n) + (if names[|names| - 1] == n then 1 else 0)
  }

  lemma {:induction false} TimesConcat(a: seq<string>, b: seq<string>, n: string)
    ensures Times(a + b, n) == Times(a, n) + Times(b, n)
  {
    if b == [] {
      assert a + b == a;
    } else {
      TimesConcat(a, b[..|b| - 1], n);
      assert (a + b)[..|a + b| - 1] == a + b[..|b| - 1];
    }
  }

  /** The run that led from `before` to `after` stopped between executing `n` and recording it:
      it executed something, `n` last, and did not record it. */
  predicate CutOff(before: Db, after: Db, n: string) {
    && |before.executed| < |after.executed| && after.executed[|after.executed| - 1] == n
    && n !in after.recorded
  }

  /** How many runs of the series stopped so. */
  function CutOffs(files: seq<File>, db: Db, budgets: seq<nat>, n: string): nat {
    if budgets == [] then 0
    else
      var front := budgets[..|budgets| - 1];
      CutOffs(files, db, front, n)
      + (if CutOff(RunAll(files, db, front), RunAll(files, db, budgets), n) then 1 else 0)
  }

  /** One of the files is `n` and not blank. */
  predicate HasStatements(files: seq<File>, n: string) {
    exists i :: 0 <= i < |files| && files[i].name == n && !files[i].blank
  }

  /** `n` is recorded and was not blank. */
  predicate Done(files: seq<File>, db: Db, n: string) { n in db.recorded && HasStatements(files, n) }

  /** A list of different files has each to be executed once, if it is not blank. */
  lemma {:induction false} ToExecuteOnce(pending: seq<File>, n: string)
    requires Distinct(pending)
    ensures Times(ToExecute(pending), n) == if HasStatements(pending, n) then 1 else 0
  {
    if pending != [] {
      var rest := pending[1..];
      ToExecuteOnce(rest, n);
      var head := if pending[0].blank then [] else [pending[0].name];
      TimesConcat(head, ToExecute(rest), n);
      assert head != [] ==> head[..0] == [];
      forall i | 0 <= i < |rest| ensures rest[i] == pending[i + 1] && rest[i].name != pending[0].name {
      }
    }
  }

  lemma ToExecuteRecorded(pending: seq<File>, n: string)
    requires n in ToExecute(pending)
    ensures n in Names(pending)
  {
    ExecutedIn(pending, n);
    var i :| 0 <= i < |pending| && pending[i].name == n && !pending[i].blank;
    assert Names(pending)[i] == n;
  }

  /** A run is cut off at a file exactly when it stopped half way through it. */
  lemma CutOffIffHalf(files: seq<File>, db: Db, db': Db, r: nat, k: nat, half: bool, n: string)
    requires Distinct(files) && UpTo(files, db, r) && StoppedAt(db, db', files[r..], k, half)
    ensures CutOff(db, db', n) <==> half && n == files[r + k].name
  {
    var pending := files[r..];
    var before := ToExecute(pending[..k]);
    if half {
      AdvancedBy(files, db, r, db', k, half);
      RecordedIffBefore(files, r + k, r + k);
    } else if CutOff(db, db', n) {
      assert before[|before| - 1] == n;
      ToExecuteRecorded(pending[..k], n);
    }
  }

  lemma ExecutedTimes(db: Db, db': Db, pending: seq<File>, k: nat, half: bool, n: string)
    requires StoppedAt(db, db', pending, k, half)
    ensures Times(db'.executed, n) == Times(db.executed, n) + Times(ToExecute(pending[..k]), n)
      + (if half && pending[k].name == n then 1 else 0)
  {
    var tail := if half then [pending[k].name] else [];
    TimesConcat(db.executed + ToExecute(pending[..k]), tail, n);
    TimesConcat(db.executed, ToExecute(pending[..k]), n);
    assert tail != [] ==> tail[..0] == [];
  }

  lemma RunExecutes(files: seq<File>, db: Db, r: nat, steps: nat, n: string)
    requires Distinct(files) && UpTo(files, db, r)
    ensures var db' := Process(db, Pending(files, db.recorded), steps);
      Times(db'.executed, n) - (if Done(files, db', n) then 1 else 0)
        == Times(db.executed, n) - (if Done(files, db, n) then 1 else 0) + (if CutOff(db, db', n) then 1 else 0)
  {
    PendingOfPrefix(files, |files|, r);
    assert files[..|files|] == files;
    var pending := files[r..];
    RunStops(db, pending, steps);
    var db' := Process(db, pending, steps);
    var k: nat, half :| StoppedAt(db, db', pending, k, half);
    AdvancedBy(files, db, r, db', k, half);
    CutOffIffHalf(files, db, db', r, k, half, n);
    ExecutedTimes(db, db', pending, k, half, n);
    ToExecuteOnce(pending[..k], n);
    NewlyDone(files, db, db', r, k, n);
  }

  /** The files a run newly records are those of its stretch. */
  lemma NewlyDone(files: seq<File>, db: Db, db': Db, r: nat, k: nat, n: string)
    requires Distinct(files) && r + k <= |files|
    requires db.recorded == Names(files[..r]) && db'.recorded == Names(files[..r + k])
    ensures Done(files, db', n) <==> Done(files, db, n) || HasStatements(files[r..][..k], n)
    ensures Done(files, db, n) ==> !HasStatements(files[r..][..k], n)
  {
    var stretch := files[r..][..k];
    forall i | 0 <= i < k ensures stretch[i] == files[r + i] {
    }
    if i :| 0 <= i < |files| && files[i].name == n && !files[i].blank {
      RecordedIffBefore(files, r, i);
      RecordedIffBefore(files, r + k, i);
      if r <= i < r + k { assert stretch[i - r] == files[i]; }
    }
  }

  /** Over any series of interrupted runs from an empty database a file is executed once for
      every run that stopped between executing and recording it, and once more if it has been
      recorded and was not blank; so it is executed twice exactly when such a stop came before. */
  lemma {:induction false} TimesExecuted(files: seq<File>, budgets: seq<nat>, n: string)
    requires Distinct(files)
    ensures var db := RunAll(files, Db([], []), budgets);
      Times(db.executed, n) == CutOffs(files, Db([], []), budgets, n) + (if Done(files, db, n) then 1 else 0)
  {
    if budgets != [] {
      var front := budgets[..|budgets| - 1];
      TimesExecuted(files, front, n);
      FreshDatabase(files);
      InterruptedRuns(files, Db([], []), 0, front);
      var before := RunAll(files, Db([], []), front);
      var r: nat :| UpTo(files, before, r);
      RunExecutes(files, before, r, budgets[|budgets| - 1], n);
    }
  }

  /** From an empty database: after any series of interrupted runs every recorded file with
      something to execute was executed, and the executed ones are the recorded ones and at
      most the next file. */
  lemma InterruptedFromScratch(files: seq<File>, budgets: seq<nat>)
    requires Distinct(files)
    ensures var db := RunAll(files, Db([], []), budgets);
      && (exists k: nat :: k <= |files| && db.recorded == Names(files[..k]))
      && (forall f :: f in files && f.name in db.recorded && !f.blank ==> f.name in db.executed)
      && (forall m, n :: Unrecorded(db, m) && Unrecorded(db, n) ==> m == n)
  {
    FreshDatabase(files);
    InterruptedRuns(files, Db([], []), 0, budgets);
    var db := RunAll(files, Db([], []), budgets);
    var k: nat :| UpTo(files, db, k);
    forall f | f in files && f.name in db.recorded && !f.blank ensures f.name in db.executed {
      var n: nat :| n < |files| && files[n] == f;
      RecordedIffBefore(files, k, n);
    }
  }

  lemma OnlyNext(files: seq<File>, db: Db, k: nat, n: string)
    requires UpTo(files, db, k) && n in db.executed && n !in db.recorded
    ensures k < |files| && n == files[k].name
  {
    var i :| 0 <= i < |files| && i <= k && files[i].name == n && !files[i].blank;
    forall j | 0 <= j < k ensures files[j].name in db.recorded {
      assert Names(files[..k])[j] == files[j].name;
    }
  }

  /** A run that completes records every file, and the next run executes and records nothing. */
  lemma CompleteRunIsFinal(files: seq<File>, db: Db, steps: nat, again: nat)
    requires InOrder(files) && Distinct(files) && steps >= Cost(Pending(files, db.recorded))
    ensures var done := Process(db, Pending(files, db.recorded), steps);
      && (forall f :: f in files ==> f.name in done.recorded)
      && Pending(files, done.recorded) == []
      && Process(done, Pending(files, done.recorded), again) == done
  {
    var pending := Pending(files, db.recorded);
    RunStops(db, pending, steps);
    var done := Process(db, pending, steps);
    var k: nat, half :| StoppedAt(db, done, pending, k, half) && k == |pending|;
    assert pending[..k] == pending;
    PendingFacts(files, db.recorded);
    forall f | f in files ensures f.name in done.recorded {
      if f.name !in db.recorded {
        assert f in pending;
        var i :| 0 <= i < |pending| && pending[i] == f;
        assert Names(pending)[i] == f.name;
      }
    }
    PendingFacts(files, done.recorded);
    if Pending(files, done.recorded) != [] {
      assert Pending(files, done.recorded)[0] in Pending(files, done.recorded);
    }
  }

  // ---------------------------------------------------------------- the program

  class Migrator {
    var executed: seq<string>
    var recorded: seq<string>

    ghost function Value(): Db
      reads this
    {
      Db(executed, recorded)
    }

    constructor ()
      ensures Value() == Db([], [])
    {
      executed, recorded := [], [];
    }

    /** The program, allowed `budget` statements before it is stopped. */
    method Run(listing: seq<Entry>, budget: nat) returns (complete: bool)
      modifies this
      ensures var files := Files(SortFiles(SqlFiles(listing)));
        && Value() == Process(old(Value()), Pending(files, old(recorded)), budget)
        && (complete <==> budget >= Cost(Pending(files, old(recorded))))
    {
      var files: seq<Entry> := [];
      for i := 0 to |listing|
        invariant files == SqlFiles(listing[..i])
      {
        assert listing[..i + 1][..i] == listing[..i];
        if IsSql(listing[i]) { files := files + [listing[i]]; }
      }
      assert listing[..|listing|] == listing;
      files := SortFiles(files);

      var pending := FilterPending(files);
      PendingOfEntries(files, recorded);
      complete := Work(pending, budget);
    }

    method FilterPending(files: seq<Entry>) returns (pending: seq<Entry>)
      ensures pending == PendingEntries(files, recorded)
    {
      var applied := set v | v in recorded;
      pending := [];
      for i := 0 to |files|
        invariant pending == PendingEntries(files[..i], recorded)
      {
        assert files[..i + 1][..i] == files[..i];
        if files[i].name !in applied { pending := pending + [files[i]]; }
      }
      assert files[..|files|] == files;
    }

    method Work(pending: seq<Entry>, budget: nat) returns (complete: bool)
      modifies this
      ensures Value() == Process(old(Value()), Files(pending), budget)
      ensures complete <==> budget >= Cost(Files(pending))
    {
      var left, i := budget, 0;
      ghost var files := Files(pending);
      while i < |pending|
        invariant 0 <= i <= |pending| && 0 <= left <= budget
        invariant Process(Value(), files[i..], left) == Process(old(Value()), files, budget)
        invariant left >= Cost(files[i..]) <==> budget >= Cost(files)
      {
        FilesAt(pending, i);
        assert files[i..][1..] == files[i + 1..] && files[i..][0] == files[i];
        if left == 0 { return false; }
        BlankIffSpaces(pending[i].sql);
        if TrimSpace(pending[i].sql) == [] {
          recorded := recorded + [pending[i].name];
          left := left - 1;
        } else {
          executed := executed + [pending[i].name];
          if left == 1 { return false; }
          recorded := recorded + [pending[i].name];
          left := left - 2;
        }
        i := i + 1;
      }
      complete := true;
    }
  }
}
