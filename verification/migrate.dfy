/** internal/store's migrate: apply the embedded files not yet recorded, in name order, one transaction
    each. An attempt may be cut off by an error or a crash at any statement, and be made again. */
module Migrations {
  import opened Base

  // ---- File names in order ----

  /** Byte-wise string order, as in sort.Strings. */
  predicate Less(a: string, b: string) {
    b != "" && (a == "" || a[0] < b[0] || (a[0] == b[0] && Less(a[1..], b[1..])))
  }

  lemma {:induction false} LessTransitive(a: string, b: string, c: string)
    requires Less(a, b) && Less(b, c)
    ensures Less(a, c)
  {
    if a != "" && a[0] == b[0] && b[0] == c[0] {
      LessTransitive(a[1..], b[1..], c[1..]);
    }
  }

  lemma {:induction false} LessTotal(a: string, b: string)
    ensures Less(a, b) || a == b || Less(b, a)
  {
    if a != "" && b != "" && a[0] == b[0] {
      LessTotal(a[1..], b[1..]);
      assert a == [a[0]] + a[1..] && b == [b[0]] + b[1..];
    }
  }

  lemma {:induction false} LessIrreflexive(a: string)
    ensures !Less(a, a)
  {
    if a != "" {
      LessIrreflexive(a[1..]);
    }
  }

  /** a has b as a longer text it begins, or differs from it first at k, by a smaller character. */
  predicate LessAt(a: string, b: string, k: nat) {
    k <= |a| && k < |b| && a[..k] == b[..k] && (k == |a| || a[k] < b[k])
  }

  /** The order compares texts at their first difference. */
  lemma {:induction false} LessExactly(a: string, b: string)
    ensures Less(a, b) <==> exists k: nat :: LessAt(a, b, k)
  {
    if a == "" || b == "" || a[0] != b[0] {
      if Less(a, b) {
        assert LessAt(a, b, 0);
      }
    } else {
      LessExactly(a[1..], b[1..]);
      if Less(a, b) {
        var k: nat :| LessAt(a[1..], b[1..], k);
        assert a[..k + 1] == [a[0]] + a[1..][..k] && b[..k + 1] == [b[0]] + b[1..][..k];
        assert LessAt(a, b, k + 1);
      }
      forall k: nat | LessAt(a, b, k) ensures Less(a, b) {
        assert a[1..][..k - 1] == a[..k][1..] && b[1..][..k - 1] == b[..k][1..];
        assert LessAt(a[1..], b[1..], k - 1);
      }
    }
  }

  predicate Sorted(names: seq<string>) {
    forall i, j :: 0 <= i < j < |names| ==> Less(names[i], names[j])
  }

  ghost predicate ListsFiles(names: seq<string>, files: set<string>) {
    Sorted(names) && forall x :: x in names <==> x in files
  }

  /** Where a name belongs in a sorted list. */
  function Insert(names: seq<string>, x: string): seq<string> {
    if names == [] || Less(x, names[0]) then [x] + names else [names[0]] + Insert(names[1..], x)
  }

  function Sort(names: seq<string>): seq<string> {
    if names == [] then [] else Insert(Sort(names[1..]), names[0])
  }

  lemma {:induction false} InsertKeepsOrder(names: seq<string>, x: string)
    requires Sorted(names) && x !in names
    ensures Sorted(Insert(names, x)) && forall y :: y in Insert(names, x) <==> y == x || y in names
  {
    if names == [] {
    } else if Less(x, names[0]) {
      forall i | 0 < i < |names| ensures Less(x, names[i]) {
        LessTransitive(x, names[0], names[i]);
      }
    } else {
      InsertKeepsOrder(names[1..], x);
      LessTotal(x, names[0]);
      var rest := Insert(names[1..], x);
      forall y | y in rest ensures Less(names[0], y) {
        if y != x {
          var i :| 0 < i < |names| && names[i] == y;
        }
      }
      assert names == [names[0]] + names[1..];
    }
  }

  lemma {:induction false} SortLists(names: seq<string>)
    requires Distinct(names)
    ensures Sorted(Sort(names)) && forall x :: x in Sort(names) <==> x in names
  {
    if names != [] {
      SortLists(names[1..]);
      InsertKeepsOrder(Sort(names[1..]), names[0]);
      assert names == [names[0]] + names[1..];
    }
  }

  lemma SortedIsDistinct(names: seq<string>)
    requires Sorted(names)
    ensures Distinct(names)
  {
    forall i, j | 0 <= i < j < |names| ensures names[i] != names[j] {
      LessIrreflexive(names[i]);
    }
  }

  /** The first names of two sorted listings of the same files agree. */
  lemma SameFirst(a: seq<string>, b: seq<string>, files: set<string>)
    requires ListsFiles(a, files) && ListsFiles(b, files) && a != [] && b != []
    ensures a[0] == b[0]
  {
    assert a[0] in files && b[0] in files;
    var i :| 0 <= i < |b| && b[i] == a[0];
    var j :| 0 <= j < |a| && a[j] == b[0];
    if i > 0 && j > 0 {
      LessTransitive(a[0], b[0], a[0]);
      LessIrreflexive(a[0]);
    }
  }

  lemma EmptyListing(a: seq<string>, files: set<string>)
    requires ListsFiles(a, files)
    ensures a == [] <==> files == {}
  {
    if a != [] {
      assert a[0] in files;
    } else {
      assert forall x :: x !in files;
    }
  }

  /** A set of files has one sorted listing. */
  lemma {:induction false} ListingIsUnique(a: seq<string>, b: seq<string>, files: set<string>)
    requires ListsFiles(a, files) && ListsFiles(b, files)
    ensures a == b
    decreases |a|
  {
    EmptyListing(a, files);
    EmptyListing(b, files);
    if a != [] {
      SameFirst(a, b, files);
      RestLists(a, files);
      RestLists(b, files);
      ListingIsUnique(a[1..], b[1..], files - {a[0]});
      assert a == [a[0]] + a[1..] && b == [b[0]] + b[1..];
    }
  }

  lemma RestLists(a: seq<string>, files: set<string>)
    requires ListsFiles(a, files) && a != []
    ensures ListsFiles(a[1..], files - {a[0]})
  {
    SortedIsDistinct(a);
    forall x | x in files && x != a[0] ensures x in a[1..] {
      var i :| 0 <= i < |a| && a[i] == x;
      assert a[1..][i - 1] == x;
    }
  }

  /** If every new file sorts after every old one, the old listing is a prefix of the new one. */
  lemma NewFilesAtTheEnd(older: seq<string>, files: set<string>, more: set<string>, newer: seq<string>,
                         added: seq<string>)
    requires ListsFiles(older, files) && ListsFiles(added, more) && ListsFiles(newer, files + more)
    requires forall x, y :: x in files && y in more ==> Less(x, y)
    ensures newer == older + added
  {
    var joined := older + added;
    forall i, j | 0 <= i < j < |joined| ensures Less(joined[i], joined[j]) {
      if i < |older| <= j {
        assert older[i] in files && added[j - |older|] in more;
      }
    }
    ListingIsUnique(newer, joined, files + more);
  }

  // ---- One attempt ----

  datatype DirEntry = DirEntry(name: string, isDir: bool)

  predicate IsMigration(e: DirEntry) {
    !e.isDir && |e.name| >= 4 && e.name[|e.name| - 4..] == ".sql"
  }

  function MigrationNames(entries: seq<DirEntry>): seq<string> {
    if entries == [] then []
    else
      var e := entries[|entries| - 1];
      MigrationNames(entries[..|entries| - 1]) + if IsMigration(e) then [e.name] else []
  }

  /** A listing's migrations are the names of its files, not of its directories, that end in .sql, each as often
      as it is listed. */
  lemma {:induction false} MigrationNamesExactly(entries: seq<DirEntry>)
    ensures forall x :: x in MigrationNames(entries) <==>
              exists e :: e in entries && !e.isDir && e.name == x && exists stem :: x == stem + ".sql"
    ensures (forall i, j :: 0 <= i < j < |entries| ==> entries[i].name != entries[j].name)
            ==> Distinct(MigrationNames(entries))
  {
    if entries != [] {
      var init, e := entries[..|entries| - 1], entries[|entries| - 1];
      MigrationNamesExactly(init);
      EndsInSql(e.name);
      assert forall f :: f in entries <==> f in init || f == e;
      if forall i, j :: 0 <= i < j < |entries| ==> entries[i].name != entries[j].name {
        assert forall i, j :: 0 <= i < j < |init| ==> init[i] == entries[i] && init[j] == entries[j];
        assert e.name !in MigrationNames(init) by {
          assert forall f :: f in init ==> exists k :: 0 <= k < |init| && entries[k] == f;
        }
      }
    }
  }

  lemma EndsInSql(name: string)
    ensures (exists stem :: name == stem + ".sql") <==> |name| >= 4 && name[|name| - 4..] == ".sql"
  {
    if |name| >= 4 && name[|name| - 4..] == ".sql" {
      assert name == name[..|name| - 4] + ".sql";
    }
  }

  /** schema_migrations, in commit order, and the schema the committed files produced. */
  datatype DbState<S> = DbState(recorded: seq<string>, schema: S)

  /** Where an attempt is cut off while it handles one file: by an error, or by a crash, which leaves the
      same behind. A failing commit may still have taken effect. */
  datatype Stop = Nowhere | AtCheck | AtRead | AtBegin | AtExec | AtRecord | AtCommitLost | AtCommitKept

  /** One committed transaction: the body and the record together. */
  function Committed<S>(apply: (S, string) -> S, st: DbState<S>, name: string): DbState<S> {
    DbState(st.recorded + [name], apply(st.schema, name))
  }

  /** migrate's loop from file i on: what the database is left as, and whether the attempt completed. */
  function MigrateFrom<S>(apply: (S, string) -> S, st: DbState<S>, names: seq<string>, stops: int -> Stop, i: nat)
    : (DbState<S>, bool)
    requires i <= |names|
    decreases |names| - i
  {
    if i == |names| then (st, true)
    else if stops(i) == AtCheck then (st, false)
    else if names[i] in st.recorded then MigrateFrom(apply, st, names, stops, i + 1)
    else if stops(i) == Nowhere then MigrateFrom(apply, Committed(apply, st, names[i]), names, stops, i + 1)
    else if stops(i) == AtCommitKept then (Committed(apply, st, names[i]), false)
    else (st, false)
  }

  class Database<S> {
    const apply: (S, string) -> S
    var state: DbState<S>

    constructor (apply: (S, string) -> S, empty: S)
      ensures this.apply == apply && state == DbState([], empty)
    {
      this.apply, state := apply, DbState([], empty);
    }

    /** createFails and listFails are the attempt's first two statements. */
    method Migrate(entries: seq<DirEntry>, createFails: bool, listFails: bool, stops: int -> Stop) returns (err: bool)
      modifies this
      ensures createFails || listFails ==> err && state == old(state)
      ensures !createFails && !listFails ==>
                (state, !err) == MigrateFrom(apply, old(state), Sort(MigrationNames(entries)), stops, 0)
      ensures !createFails && !listFails && (forall i :: 0 <= i < |entries| ==> stops(i) == Nowhere)
              && (forall i, j :: 0 <= i < j < |entries| ==> entries[i].name != entries[j].name)
              && old(state).recorded == [] ==>
                && !err && Sorted(state.recorded) && state.schema == Fold(apply, old(state).schema, state.recorded)
                && forall x :: x in state.recorded <==>
                     exists e :: e in entries && !e.isDir && e.name == x && exists stem :: x == stem + ".sql"
    {
      FreshAttempt(apply, state, entries, stops);
      if createFails || listFails {
        return true;
      }
      var names := [];
      for k := 0 to |entries|
        invariant names == MigrationNames(entries[..k])
      {
        assert entries[..k + 1][..k] == entries[..k];
        if IsMigration(entries[k]) {
          names := names + [entries[k].name];
        }
      }
      assert entries[..|entries|] == entries;
      names := Sort(names);

      ghost var start := state;
      for i := 0 to |names|
        invariant MigrateFrom(apply, state, names, stops, i) == MigrateFrom(apply, start, names, stops, 0)
      {
        var name := names[i];
        if stops(i) == AtCheck {
          return true;
        }
        if name in state.recorded {
          continue;
        }
        if stops(i) == AtRead || stops(i) == AtBegin {
          return true;
        }
        // The transaction works on a copy; every way out before the commit rolls it back.
        var tx := state;
        if stops(i) == AtExec {
          return true;
        }
        tx := tx.(schema := apply(tx.schema, name));
        if stops(i) == AtRecord {
          return true;
        }
        tx := tx.(recorded := tx.recorded + [name]);
        if stops(i) == AtCommitLost {
          return true;
        }
        state := tx;
        if stops(i) == AtCommitKept {
          return true;
        }
      }
      err := false;
    }
  }

  // ---- Crash safety ----

  /** The schema after the given files, in that order. */
  function Fold<S>(apply: (S, string) -> S, empty: S, names: seq<string>): S {
    if names == [] then empty else apply(Fold(apply, empty, names[..|names| - 1]), names[|names| - 1])
  }

  /** Exactly a prefix of the sorted names is recorded, and the schema is what that prefix produces. */
  predicate Sound<S(==)>(apply: (S, string) -> S, empty: S, st: DbState<S>, names: seq<string>) {
    st.recorded <= names && st.schema == Fold(apply, empty, st.recorded)
  }

  lemma CommitKeepsSound<S>(apply: (S, string) -> S, empty: S, st: DbState<S>, names: seq<string>)
    requires Sound(apply, empty, st, names) && |st.recorded| < |names|
    ensures Sound(apply, empty, Committed(apply, st, names[|st.recorded|]), names)
  {
    var more := st.recorded + [names[|st.recorded|]];
    assert more[..|more| - 1] == st.recorded;
  }

  lemma {:induction false} AttemptKeepsSound<S>(apply: (S, string) -> S, empty: S, st: DbState<S>, names: seq<string>,
                                                stops: int -> Stop, i: nat)
    requires Sound(apply, empty, st, names) && Distinct(names) && i <= |st.recorded|
    ensures var (st', done) := MigrateFrom(apply, st, names, stops, i);
            && Sound(apply, empty, st', names) && st.recorded <= st'.recorded
            && (done ==> st'.recorded == names)
    decreases |names| - i
  {
    if i < |names| && stops(i) != AtCheck {
      if i < |st.recorded| {
        assert names[i] == st.recorded[i];
        AttemptKeepsSound(apply, empty, st, names, stops, i + 1);
      } else {
        assert names[i] !in st.recorded by {
          assert forall k :: 0 <= k < i ==> st.recorded[k] == names[k];
        }
        if stops(i) == Nowhere || stops(i) == AtCommitKept {
          CommitKeepsSound(apply, empty, st, names);
        }
        if stops(i) == Nowhere {
          AttemptKeepsSound(apply, empty, Committed(apply, st, names[i]), names, stops, i + 1);
        }
      }
    }
  }

  /** One attempt by some version of the program: its sorted files and where it is cut off. */
  datatype Attempt = Attempt(names: seq<string>, stops: int -> Stop)

  function AllAttempts<S>(apply: (S, string) -> S, st: DbState<S>, attempts: seq<Attempt>): DbState<S> {
    if attempts == [] then st
    else
      var a := attempts[|attempts| - 1];
      MigrateFrom(apply, AllAttempts(apply, st, attempts[..|attempts| - 1]), a.names, a.stops, 0).0
  }

  /** Later versions only add files at the sorted end; each list is a prefix of the final one. */
  ghost predicate Growing(attempts: seq<Attempt>) {
    && (forall i :: 0 <= i < |attempts| ==> Distinct(attempts[i].names))
    && (forall i, j :: 0 <= i <= j < |attempts| ==> attempts[i].names <= attempts[j].names)
  }

  /** After any number of attempts cut off anywhere, the schema is what a prefix of the sorted files
      produces, exactly that prefix is recorded, and no file is committed twice. */
  lemma {:induction false} CrashSafe<S>(apply: (S, string) -> S, empty: S, attempts: seq<Attempt>, names: seq<string>)
    requires Growing(attempts) && Distinct(names)
    requires forall i :: 0 <= i < |attempts| ==> attempts[i].names <= names
    ensures var st := AllAttempts(apply, DbState([], empty), attempts);
            && Sound(apply, empty, st, names) && Distinct(st.recorded)
            && (attempts != [] ==> Sound(apply, empty, st, attempts[|attempts| - 1].names))
  {
    if attempts != [] {
      var last := |attempts| - 1;
      var init := attempts[..last];
      CrashSafe(apply, empty, init, attempts[last].names);
      AttemptKeepsSound(apply, empty, AllAttempts(apply, DbState([], empty), init), attempts[last].names,
                        attempts[last].stops, 0);
    }
  }

  /** An attempt that completes leaves the full fold, whatever happened before. */
  lemma CompletedAttempt<S>(apply: (S, string) -> S, empty: S, attempts: seq<Attempt>, a: Attempt)
    requires Growing(attempts + [a])
    ensures var st := AllAttempts(apply, DbState([], empty), attempts);
            var (st', done) := MigrateFrom(apply, st, a.names, a.stops, 0);
            done ==> st' == DbState(a.names, Fold(apply, empty, a.names))
  {
    var all := attempts + [a];
    assert all[|attempts|] == a && forall i :: 0 <= i < |attempts| ==> all[i] == attempts[i];
    CrashSafe(apply, empty, attempts, a.names);
    AttemptKeepsSound(apply, empty, AllAttempts(apply, DbState([], empty), attempts), a.names, a.stops, 0);
  }

  /** An attempt completes exactly if nothing stops it: no check fails, and no file still to be applied is cut off. */
  lemma {:induction false} CompletesExactly<S>(apply: (S, string) -> S, empty: S, st: DbState<S>, names: seq<string>,
                                               stops: int -> Stop, i: nat)
    requires Sound(apply, empty, st, names) && Distinct(names) && i <= |st.recorded|
    ensures MigrateFrom(apply, st, names, stops, i).1 <==>
            forall k :: i <= k < |names| ==> stops(k) != AtCheck && (k >= |st.recorded| ==> stops(k) == Nowhere)
    decreases |names| - i
  {
    if i < |names| && stops(i) != AtCheck {
      if i < |st.recorded| {
        assert names[i] == st.recorded[i];
        CompletesExactly(apply, empty, st, names, stops, i + 1);
      } else {
        NextIsPending(apply, empty, st, names);
        if stops(i) == Nowhere {
          CommitKeepsSound(apply, empty, st, names);
          CompletesExactly(apply, empty, Committed(apply, st, names[i]), names, stops, i + 1);
        }
      }
    }
  }

  lemma NextIsPending<S>(apply: (S, string) -> S, empty: S, st: DbState<S>, names: seq<string>)
    requires Sound(apply, empty, st, names) && Distinct(names) && |st.recorded| < |names|
    ensures names[|st.recorded|] !in st.recorded
  {
    assert forall k :: 0 <= k < |st.recorded| ==> st.recorded[k] == names[k];
  }

  /** An attempt cut off first while it handles file k leaves the files before it applied and recorded, and
      neither applies nor records k, unless the cut only hid a commit that took effect. */
  lemma {:induction false} CutOffAt<S>(apply: (S, string) -> S, empty: S, st: DbState<S>, names: seq<string>,
                                       stops: int -> Stop, i: nat, k: nat)
    requires Sound(apply, empty, st, names) && Distinct(names) && i <= |st.recorded| <= k < |names|
    requires (forall j :: i <= j < k ==> stops(j) == Nowhere) && stops(k) != Nowhere
    ensures var applied := if stops(k) == AtCommitKept then names[..k + 1] else names[..k];
            MigrateFrom(apply, st, names, stops, i) == (DbState(applied, Fold(apply, empty, applied)), false)
    decreases |names| - i
  {
    if i < |st.recorded| {
      assert names[i] == st.recorded[i];
      CutOffAt(apply, empty, st, names, stops, i + 1, k);
    } else {
      NextIsPending(apply, empty, st, names);
      CommitKeepsSound(apply, empty, st, names);
      assert st.recorded == names[..i] && names[..i + 1] == names[..i] + [names[i]];
      if i < k {
        CutOffAt(apply, empty, Committed(apply, st, names[i]), names, stops, i + 1, k);
      }
    }
  }

  lemma {:induction false} SortKeepsLength(names: seq<string>)
    ensures |Sort(names)| == |names|
  {
    if names != [] {
      SortKeepsLength(names[1..]);
      InsertAddsOne(Sort(names[1..]), names[0]);
    }
  }

  lemma {:induction false} InsertAddsOne(names: seq<string>, x: string)
    ensures |Insert(names, x)| == |names| + 1
  {
    if names != [] && !Less(x, names[0]) {
      InsertAddsOne(names[1..], x);
    }
  }

  lemma {:induction false} FewerNames(entries: seq<DirEntry>)
    ensures |MigrationNames(entries)| <= |entries|
  {
    if entries != [] {
      FewerNames(entries[..|entries| - 1]);
    }
  }

  /** On an empty database an attempt that nothing cuts off applies exactly the directory's migrations, in order. */
  lemma FreshAttempt<S>(apply: (S, string) -> S, st: DbState<S>, entries: seq<DirEntry>, stops: int -> Stop)
    ensures (forall i :: 0 <= i < |entries| ==> stops(i) == Nowhere)
            && (forall i, j :: 0 <= i < j < |entries| ==> entries[i].name != entries[j].name)
            && st.recorded == [] ==>
              var (st', done) := MigrateFrom(apply, st, Sort(MigrationNames(entries)), stops, 0);
              && done && Sorted(st'.recorded) && st'.schema == Fold(apply, st.schema, st'.recorded)
              && forall x :: x in st'.recorded <==>
                   exists e :: e in entries && !e.isDir && e.name == x && exists stem :: x == stem + ".sql"
  {
    hide MigrateFrom, IsMigration, Insert;
    var names := MigrationNames(entries);
    if && (forall i :: 0 <= i < |entries| ==> stops(i) == Nowhere)
       && (forall i, j :: 0 <= i < j < |entries| ==> entries[i].name != entries[j].name)
       && st.recorded == [] {
      MigrationNamesExactly(entries);
      SortLists(names);
      SortKeepsLength(names);
      FewerNames(entries);
      SortedIsDistinct(Sort(names));
      CompletesExactly(apply, st.schema, st, Sort(names), stops, 0);
      AttemptKeepsSound(apply, st.schema, st, Sort(names), stops, 0);
    }
  }

  /** Once everything is recorded another attempt changes nothing, wherever it is cut off. */
  lemma {:induction false} RerunChangesNothing<S>(apply: (S, string) -> S, st: DbState<S>, names: seq<string>,
                                                  stops: int -> Stop, i: nat)
    requires i <= |names| && forall name :: name in names ==> name in st.recorded
    ensures MigrateFrom(apply, st, names, stops, i).0 == st
    decreases |names| - i
  {
    if i < |names| {
      RerunChangesNothing(apply, st, names, stops, i + 1);
    }
  }

  lemma {:induction false} AttemptExtends<S>(apply: (S, string) -> S, st: DbState<S>, names: seq<string>,
                                             stops: int -> Stop, i: nat)
    requires i <= |names|
    ensures st.recorded <= MigrateFrom(apply, st, names, stops, i).0.recorded
    decreases |names| - i
  {
    if i < |names| && stops(i) != AtCheck {
      if names[i] in st.recorded {
        AttemptExtends(apply, st, names, stops, i + 1);
      } else if stops(i) == Nowhere {
        AttemptExtends(apply, Committed(apply, st, names[i]), names, stops, i + 1);
      }
    }
  }

  /** A completed attempt has applied the files in sorted order exactly if what was recorded before it is a
      prefix of the sorted list, that is, if new files only sort after the recorded ones. */
  lemma OrderKeptIffAddedAtTheEnd<S>(apply: (S, string) -> S, empty: S, st: DbState<S>, names: seq<string>,
                                     stops: int -> Stop)
    requires st.schema == Fold(apply, empty, st.recorded) && Distinct(names)
    requires MigrateFrom(apply, st, names, stops, 0).1
    ensures MigrateFrom(apply, st, names, stops, 0).0.recorded == names <==> st.recorded <= names
  {
    AttemptExtends(apply, st, names, stops, 0);
    if st.recorded <= names {
      AttemptKeepsSound(apply, empty, st, names, stops, 0);
    }
  }

  const UNCUT: int -> Stop := _ => Nowhere

  /** A file added before a recorded one is applied after it: the order is then not the sorted one. */
  lemma LateFileRunsOutOfOrder<S>(apply: (S, string) -> S, empty: S)
    ensures MigrateFrom(apply, DbState(["b.sql"], apply(empty, "b.sql")), ["a.sql", "b.sql"], UNCUT, 0)
         == (DbState(["b.sql", "a.sql"], apply(apply(empty, "b.sql"), "a.sql")), true)
  {
    var st := DbState(["b.sql"], apply(empty, "b.sql"));
    var names := ["a.sql", "b.sql"];
    var st' := Committed(apply, st, "a.sql");
    assert "a.sql"[0] != "b.sql"[0];
    assert st.recorded[0] == "b.sql" && names[0] !in st.recorded;
    assert st'.recorded == ["b.sql", "a.sql"] && st'.recorded[0] == names[1];
    assert UNCUT(0) == UNCUT(1) == Nowhere;
    calc {
      MigrateFrom(apply, st, names, UNCUT, 0);
    ==
      MigrateFrom(apply, st', names, UNCUT, 1);
    ==  { assert names[1] in st'.recorded; }
      MigrateFrom(apply, st', names, UNCUT, 2);
    ==
      (st', true);
    }
  }
}
