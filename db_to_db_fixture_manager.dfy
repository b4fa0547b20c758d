/** DbToDbFixtureManager: test fixtures copied table by table from a fixture
    database into the test database.

    The two databases are maps from table name to rows; `fixtureData` is the
    database that `fixtureDb` names, reached through the same connection. The
    SQL the manager sends is recorded in order as Command values. Schema
    introspection (the test database's table list) and the classes that
    fixture names refer to are inputs. */
module DbToDbFixtureManager {
  import opened Wrappers

  type Row = map<string, string>
  type Table = seq<Row>

  /** A PHP array key or the value used as one: an integer or a string.
      PHP stores a decimal string such as "7" as the integer 7 (NormalKey). */
  datatype Key = Index(i: int) | Name(s: string)

  /** One element `$name => $fixture` of the array load() receives. */
  datatype Entry = Entry(key: Key, fixture: string)

  /** What loadFixture() returns: the copied rows, or false for a table the
      fixture database does not have. */
  datatype LoadedRows = Rows(rows: Table) | NotLoaded

  /** What `new $fixture` yields. */
  datatype ClassKind = ActiveRecordClass(tableName: string) | OtherClass

  /** An application component. */
  datatype Component = Connection | OtherComponent

  /** The `db` property: a component ID, an object, or null. */
  datatype DbRef = ComponentId(id: string) | Instance(component: Component) | NullRef

  /** The exceptions the manager throws (all InvalidConfigException). */
  datatype Error =
    | DbNotConnection
    | FixtureDbNotSet
    | NotActiveRecord(fixture: string)
    | UnknownClass(fixture: string)
    | TableMissing(table: string)

  /** The statements sent to the test database. */
  datatype Command =
    | CheckIntegrity(enabled: bool)         // foreign key checks on or off
    | Probe(table: string)                  // SELECT 1 FROM fixtureDb.table LIMIT 1
    | Truncate(table: string)               // TRUNCATE table
    | ResetSequence(table: string, value: int)
    | CopyRows(table: string)               // INSERT INTO table SELECT * FROM fixtureDb.table
    | SelectRows(table: string)             // SELECT * FROM fixtureDb.table

  /** Default of `skipTables`. */
  const DefaultSkipTables: seq<string> := ["tbl_migration"]

  /** PHP truthiness of an optional string: null, "" and "0" are false. */
  predicate Truthy(v: Option<string>): (r: bool)
    ensures v.None? ==> !r
    ensures v.Some? ==> (r <==> v.value != "" && v.value != "0")
  {
    v.Some? && v.value != "" && v.value != "0"
  }

  predicate IsConnection(db: DbRef) {
    db.Instance? && db.component.Connection?
  }

  /** A component ID is looked up among the application's components; an
      unknown ID yields null. Anything else is kept. */
  function ResolveDb(db: DbRef, components: map<string, Component>): (r: DbRef)
    ensures !db.ComponentId? ==> r == db
    ensures db.ComponentId? && db.id in components ==> r == Instance(components[db.id])
    ensures db.ComponentId? && db.id !in components ==> r == NullRef
  {
    match db
    case ComponentId(id) => if id in components then Instance(components[id]) else NullRef
    case _ => db
  }

  // ---------------------------------------------------------------------
  // PHP array keys

  /** The range of PHP's integers (on a 64-bit build). */
  const PhpIntMin: int := -0x8000_0000_0000_0000
  const PhpIntMax: int := 0x7fff_ffff_ffff_ffff

  predicate IsDigit(c: char) {
    '0' <= c <= '9'
  }

  predicate AllDigits(s: string) {
    forall i :: 0 <= i < |s| ==> IsDigit(s[i])
  }

  /** A decimal numeral without a leading zero: "0", "7", "42", not "" or "07". */
  predicate Canonical(s: string) {
    |s| >= 1 && AllDigits(s) && (s[0] == '0' ==> |s| == 1)
  }

  /** The value of a run of decimal digits. */
  function DigitsValue(s: string): nat
    requires AllDigits(s)
    decreases |s|
  {
    if s == [] then 0
    else DigitsValue(s[..|s| - 1]) * 10 + (s[|s| - 1] as int - '0' as int)
  }

  /** The decimal numeral of `n`. */
  function Digits(n: nat): string
    decreases n
  {
    if n < 10 then [('0' as int + n) as char]
    else Digits(n / 10) + [('0' as int + n % 10) as char]
  }

  /** `(string)$i`. */
  function IntString(i: int): string {
    if i < 0 then "-" + Digits(-i) else Digits(i)
  }

  /** The integer PHP stores a string key as: a string that is the decimal
      form of an integer in range, with no sign but a minus, no leading zero
      and no "-0". Any other string stays a string key. */
  function DecimalKey(s: string): Option<int> {
    if |s| >= 2 && s[0] == '-' && Canonical(s[1..]) && s[1..] != "0" then
      var v := -(DigitsValue(s[1..]) as int);
      if PhpIntMin <= v then Some(v) else None
    else if Canonical(s) then
      var v := DigitsValue(s) as int;
      if v <= PhpIntMax then Some(v) else None
    else None
  }

  /** The key PHP actually uses for `$array[$k]`, on writing and on reading. */
  function NormalKey(k: Key): (r: Key)
    ensures k.Index? ==> r == k
    ensures r.Name? ==> r == k
  {
    match k
    case Index(_) => k
    case Name(s) => if DecimalKey(s).Some? then Index(DecimalKey(s).value) else k
  }

  lemma {:induction false} DigitsCanonical(n: nat)
    ensures Canonical(Digits(n)) && DigitsValue(Digits(n)) == n
    decreases n
  {
    var d := Digits(n);
    if n < 10 {
      assert d[..0] == [];
    } else {
      var h := Digits(n / 10);
      DigitsCanonical(n / 10);
      assert d[..|d| - 1] == h;
      assert d[0] == h[0];
    }
  }

  /** A numeral that does not start with 0 is worth at least 1. */
  lemma {:induction false} LeadingDigitPositive(s: string)
    requires |s| >= 1 && AllDigits(s) && s[0] != '0'
    ensures DigitsValue(s) >= 1
    decreases |s|
  {
    if |s| == 1 {
      assert s[..0] == [];
    } else {
      LeadingDigitPositive(s[..|s| - 1]);
    }
  }

  lemma {:induction false} CanonicalDigits(s: string)
    requires Canonical(s)
    ensures Digits(DigitsValue(s)) == s
    decreases |s|
  {
    if |s| == 1 {
      assert s[..0] == [];
    } else {
      var p := s[..|s| - 1];
      assert p[0] == s[0];
      LeadingDigitPositive(p);
      CanonicalDigits(p);
      assert s == p + [s[|s| - 1]];
    }
  }

  /** The string form of an integer in range is stored as that integer. */
  lemma IntStringKey(i: int)
    requires PhpIntMin <= i <= PhpIntMax
    ensures DecimalKey(IntString(i)) == Some(i)
  {
    var s := IntString(i);
    if i < 0 {
      DigitsCanonical(-i);
      assert s[1..] == Digits(-i);
    } else {
      DigitsCanonical(i);
    }
  }

  /** A string stored as an integer is that integer's string form. */
  lemma DecimalKeyString(s: string)
    requires DecimalKey(s).Some?
    ensures IntString(DecimalKey(s).value) == s
  {
    var t := s[1..];
    if |s| >= 2 && s[0] == '-' && Canonical(t) && t != "0" {
      assert |t| == 1 ==> t == [t[0]];
      LeadingDigitPositive(t);
      CanonicalDigits(t);
      assert s == "-" + t;
    } else {
      CanonicalDigits(s);
    }
  }

  /** A string key becomes an integer key exactly when it is the string form
      of an integer in range, and then it becomes that integer. */
  lemma StringKeyIsInteger(s: string, i: int)
    ensures NormalKey(Name(s)) == Index(i) <==> PhpIntMin <= i <= PhpIntMax && s == IntString(i)
  {
    if PhpIntMin <= i <= PhpIntMax && s == IntString(i) {
      IntStringKey(i);
    }
    if NormalKey(Name(s)) == Index(i) {
      DecimalKeyString(s);
    }
  }

  // ---------------------------------------------------------------------
  // loadAll(): which tables to load

  /** The tables of `tables` not in `skip`, in order. */
  function Kept(tables: seq<string>, skip: seq<string>): seq<string>
    decreases |tables|
  {
    if tables == [] then []
    else
      var last := tables[|tables| - 1];
      Kept(tables[..|tables| - 1], skip) + if last in skip then [] else [last]
  }

  /** The tables of `tables` in `skip`, in order. */
  function Skipped(tables: seq<string>, skip: seq<string>): seq<string>
    decreases |tables|
  {
    if tables == [] then []
    else
      var last := tables[|tables| - 1];
      Skipped(tables[..|tables| - 1], skip) + if last in skip then [last] else []
  }

  /** Every table lands in exactly one of the two lists: one is loaded
      exactly when it is not skipped. */
  lemma {:induction false} KeptSkippedPartition(tables: seq<string>, skip: seq<string>)
    ensures multiset(Kept(tables, skip)) + multiset(Skipped(tables, skip)) == multiset(tables)
    ensures forall t :: t in Kept(tables, skip) <==> t in tables && t !in skip
    ensures forall t :: t in Skipped(tables, skip) <==> t in tables && t in skip
    decreases |tables|
  {
    if tables != [] {
      var init, last := tables[..|tables| - 1], tables[|tables| - 1];
      KeptSkippedPartition(init, skip);
      assert tables == init + [last];
    }
  }

  /** The loop of loadAll() over the schema's table names. */
  method SplitTables(tableNames: seq<string>, skipTables: seq<string>)
    returns (fixtures: seq<string>, skip: seq<string>)
    ensures fixtures == Kept(tableNames, skipTables) && skip == Skipped(tableNames, skipTables)
    ensures multiset(fixtures) + multiset(skip) == multiset(tableNames)
    ensures forall t :: t in fixtures <==> t in tableNames && t !in skipTables
    ensures forall t :: t in skip <==> t in tableNames && t in skipTables
  {
    fixtures, skip := [], [];
    for i := 0 to |tableNames|
      invariant fixtures == Kept(tableNames[..i], skipTables)
      invariant skip == Skipped(tableNames[..i], skipTables)
    {
      assert tableNames[..i + 1][..i] == tableNames[..i];
      var tableName := tableNames[i];
      if tableName in skipTables {
        skip := skip + [tableName];
      } else {
        fixtures := fixtures + [tableName];
      }
    }
    assert tableNames[..|tableNames|] == tableNames;
    KeptSkippedPartition(tableNames, skipTables);
  }

  /** The PHP list `$fixtures[] = ...` builds: keys 0, 1, 2, ... */
  function Positional(tables: seq<string>): seq<Entry> {
    seq(|tables|, i requires 0 <= i < |tables| => Entry(Index(i), tables[i]))
  }

  /** No two entries land on the same array key. */
  predicate DistinctKeys(fixtures: seq<Entry>) {
    forall i, j :: 0 <= i < j < |fixtures| ==> NormalKey(fixtures[i].key) != NormalKey(fixtures[j].key)
  }

  // ---------------------------------------------------------------------
  // load(): fixture names to table names

  /** `strpos($fixture, '\\') !== false`. */
  predicate NamesClass(fixture: string) {
    '\\' in fixture
  }

  /** A fixture holding a backslash is a class name, replaced by its
      ActiveRecord's table name; any other fixture is already a table name. */
  function ResolveFixture(fixture: string, classes: map<string, ClassKind>): (r: Result<string, Error>)
    ensures !NamesClass(fixture) ==> r == Success(fixture)
    ensures NamesClass(fixture) && fixture in classes && classes[fixture].ActiveRecordClass? ==>
              r == Success(classes[fixture].tableName)
    ensures NamesClass(fixture) && fixture in classes && classes[fixture].OtherClass? ==>
              r == Failure(NotActiveRecord(fixture))
    ensures NamesClass(fixture) && fixture !in classes ==> r == Failure(UnknownClass(fixture))
  {
    if !NamesClass(fixture) then Success(fixture)
    else if fixture !in classes then Failure(UnknownClass(fixture))
    else match classes[fixture]
      case ActiveRecordClass(tableName) => Success(tableName)
      case OtherClass => Failure(NotActiveRecord(fixture))
  }

  predicate AllResolve(fixtures: seq<Entry>, classes: map<string, ClassKind>) {
    forall i :: 0 <= i < |fixtures| ==> ResolveFixture(fixtures[i].fixture, classes).Success?
  }

  /** The position of the first fixture that does not resolve. */
  function FirstFailure(fixtures: seq<Entry>, classes: map<string, ClassKind>): (k: nat)
    requires !AllResolve(fixtures, classes)
    ensures k < |fixtures| && ResolveFixture(fixtures[k].fixture, classes).Failure?
    ensures forall i :: 0 <= i < k ==> ResolveFixture(fixtures[i].fixture, classes).Success?
    decreases |fixtures|
  {
    if ResolveFixture(fixtures[0].fixture, classes).Failure? then 0
    else
      assert !AllResolve(fixtures[1..], classes) by {
        var j :| 0 <= j < |fixtures| && ResolveFixture(fixtures[j].fixture, classes).Failure?;
        assert fixtures[1..][j - 1] == fixtures[j];
      }
      1 + FirstFailure(fixtures[1..], classes)
  }

  /** The fixture array with every class name replaced by its table name. */
  function Converted(fixtures: seq<Entry>, classes: map<string, ClassKind>): seq<Entry>
    requires AllResolve(fixtures, classes)
  {
    seq(|fixtures|, i requires 0 <= i < |fixtures| =>
      Entry(fixtures[i].key, ResolveFixture(fixtures[i].fixture, classes).value))
  }

  /** The first loop of load(), rewriting `$fixtures[$name]` in place; it
      stops at the first fixture that is not an ActiveRecord class. */
  method ConvertFixtures(fixtures: seq<Entry>, classes: map<string, ClassKind>)
    returns (r: Result<seq<Entry>, Error>)
    ensures r.Success? <==> AllResolve(fixtures, classes)
    ensures r.Success? ==> r.value == Converted(fixtures, classes)
    ensures r.Failure? ==>
              r.error == ResolveFixture(fixtures[FirstFailure(fixtures, classes)].fixture, classes).error
  {
    var converted := fixtures;
    for i := 0 to |fixtures|
      invariant |converted| == |fixtures|
      invariant forall j :: 0 <= j < i ==> ResolveFixture(fixtures[j].fixture, classes).Success?
      invariant forall j :: 0 <= j < i ==>
                  converted[j] == Entry(fixtures[j].key, ResolveFixture(fixtures[j].fixture, classes).value)
      invariant converted[i..] == fixtures[i..]
    {
      var entry := converted[i];
      assert entry == fixtures[i] by { assert converted[i..][0] == fixtures[i..][0]; }
      if NamesClass(entry.fixture) {
        if entry.fixture !in classes {
          return Failure(UnknownClass(entry.fixture));
        }
        match classes[entry.fixture]
        case ActiveRecordClass(tableName) =>
          converted := converted[i := Entry(entry.key, tableName)];
        case OtherClass =>
          return Failure(NotActiveRecord(entry.fixture));
      }
    }
    r := Success(converted);
  }

  lemma ConvertedKeepsKeys(fixtures: seq<Entry>, classes: map<string, ClassKind>)
    requires AllResolve(fixtures, classes) && DistinctKeys(fixtures)
    ensures DistinctKeys(Converted(fixtures, classes))
  {
  }

  // ---------------------------------------------------------------------
  // loadFixture() and the effect of loading a list of fixtures

  /** What loadFixture() returns for a table the test database has. */
  function LoadResult(table: string, fixtureData: map<string, Table>): LoadedRows {
    if table in fixtureData then Rows(fixtureData[table]) else NotLoaded
  }

  /** The statements loadFixture() sends for a table the test database has. */
  function FixtureCommands(table: string, fixtureData: map<string, Table>): seq<Command> {
    [Probe(table)] +
    if table in fixtureData
    then [Truncate(table), ResetSequence(table, 1), CopyRows(table), SelectRows(table)]
    else []
  }

  /** The test database after loadFixture(table): truncated and refilled
      with the fixture table's rows. */
  function CopyTable(testDb: map<string, Table>, table: string, fixtureData: map<string, Table>): map<string, Table> {
    if table in testDb && table in fixtureData then testDb[table := fixtureData[table]] else testDb
  }

  function SequenceResetTo1(sequences: map<string, int>, table: string, fixtureData: map<string, Table>): map<string, int> {
    if table in fixtureData then sequences[table := 1] else sequences
  }

  /** The effects of loading `ts` one after the other. */
  function CopyAll(testDb: map<string, Table>, ts: seq<Entry>, fixtureData: map<string, Table>): map<string, Table>
    decreases |ts|
  {
    if ts == [] then testDb
    else CopyTable(CopyAll(testDb, ts[..|ts| - 1], fixtureData), ts[|ts| - 1].fixture, fixtureData)
  }

  function ResetAll(sequences: map<string, int>, ts: seq<Entry>, fixtureData: map<string, Table>): map<string, int>
    decreases |ts|
  {
    if ts == [] then sequences
    else SequenceResetTo1(ResetAll(sequences, ts[..|ts| - 1], fixtureData), ts[|ts| - 1].fixture, fixtureData)
  }

  function LoadCommands(ts: seq<Entry>, fixtureData: map<string, Table>): seq<Command>
    decreases |ts|
  {
    if ts == [] then []
    else LoadCommands(ts[..|ts| - 1], fixtureData) + FixtureCommands(ts[|ts| - 1].fixture, fixtureData)
  }

  function RowsMap(ts: seq<Entry>, fixtureData: map<string, Table>): map<Key, LoadedRows>
    decreases |ts|
  {
    if ts == [] then map[]
    else RowsMap(ts[..|ts| - 1], fixtureData)[NormalKey(ts[|ts| - 1].key) := LoadResult(ts[|ts| - 1].fixture, fixtureData)]
  }

  /** Loading one more fixture is one more step of each fold. */
  lemma LoadSnoc(done: seq<Entry>, e: Entry, testDb: map<string, Table>, sequences: map<string, int>,
                 fixtureData: map<string, Table>)
    ensures CopyAll(testDb, done + [e], fixtureData) == CopyTable(CopyAll(testDb, done, fixtureData), e.fixture, fixtureData)
    ensures ResetAll(sequences, done + [e], fixtureData) == SequenceResetTo1(ResetAll(sequences, done, fixtureData), e.fixture, fixtureData)
    ensures LoadCommands(done + [e], fixtureData) == LoadCommands(done, fixtureData) + FixtureCommands(e.fixture, fixtureData)
    ensures RowsMap(done + [e], fixtureData) == RowsMap(done, fixtureData)[NormalKey(e.key) := LoadResult(e.fixture, fixtureData)]
  {
    assert (done + [e])[..|done|] == done;
  }

  predicate Mentions(ts: seq<Entry>, table: string) {
    exists i :: 0 <= i < |ts| && ts[i].fixture == table
  }

  /** After loading `ts`, a table of the test database holds its fixture
      table's rows if one of `ts` named it and the fixture database has it,
      and is untouched otherwise; no table appears or disappears. */
  lemma {:induction false} CopyAllAt(testDb: map<string, Table>, ts: seq<Entry>,
                                     fixtureData: map<string, Table>, table: string)
    ensures table in CopyAll(testDb, ts, fixtureData) <==> table in testDb
    ensures table in testDb ==>
              CopyAll(testDb, ts, fixtureData)[table] ==
                if table in fixtureData && Mentions(ts, table) then fixtureData[table] else testDb[table]
    decreases |ts|
  {
    if ts != [] {
      var init := ts[..|ts| - 1];
      CopyAllAt(testDb, init, fixtureData, table);
      MentionsSnoc(ts, table);
    }
  }

  /** Likewise every sequence of a copied table is reset to 1. */
  lemma {:induction false} ResetAllAt(sequences: map<string, int>, ts: seq<Entry>,
                                      fixtureData: map<string, Table>, table: string)
    ensures table in fixtureData && Mentions(ts, table) ==>
              table in ResetAll(sequences, ts, fixtureData) && ResetAll(sequences, ts, fixtureData)[table] == 1
    ensures !(table in fixtureData && Mentions(ts, table)) ==>
              (table in ResetAll(sequences, ts, fixtureData) <==> table in sequences) &&
              (table in sequences ==> ResetAll(sequences, ts, fixtureData)[table] == sequences[table])
    decreases |ts|
  {
    if ts != [] {
      ResetAllAt(sequences, ts[..|ts| - 1], fixtureData, table);
      MentionsSnoc(ts, table);
    }
  }

  lemma MentionsSnoc(ts: seq<Entry>, table: string)
    requires ts != []
    ensures Mentions(ts, table) <==> Mentions(ts[..|ts| - 1], table) || ts[|ts| - 1].fixture == table
  {
    var init := ts[..|ts| - 1];
    if Mentions(ts, table) && ts[|ts| - 1].fixture != table {
      var i :| 0 <= i < |ts| && ts[i].fixture == table;
      assert init[i].fixture == table;
    }
    if Mentions(init, table) {
      var i :| 0 <= i < |init| && init[i].fixture == table;
      assert ts[i].fixture == table;
    }
  }

  /** The row map `_rows` holds after loading `ts` (with distinct keys):
      exactly their keys, each mapped to what its fixture loaded. */
  lemma {:induction false} RowsMapAt(ts: seq<Entry>, fixtureData: map<string, Table>)
    requires DistinctKeys(ts)
    ensures forall k :: k in RowsMap(ts, fixtureData) <==> exists i :: 0 <= i < |ts| && NormalKey(ts[i].key) == k
    ensures forall i :: 0 <= i < |ts| ==>
              RowsMap(ts, fixtureData)[NormalKey(ts[i].key)] == LoadResult(ts[i].fixture, fixtureData)
    decreases |ts|
  {
    if ts != [] {
      var init := ts[..|ts| - 1];
      var last := NormalKey(ts[|ts| - 1].key);
      RowsMapAt(init, fixtureData);
      forall k ensures k in RowsMap(ts, fixtureData) <==> exists i :: 0 <= i < |ts| && NormalKey(ts[i].key) == k {
        if k in RowsMap(init, fixtureData) {
          var i :| 0 <= i < |init| && NormalKey(init[i].key) == k;
          assert NormalKey(ts[i].key) == k;
        }
        if k != last && exists i :: 0 <= i < |ts| && NormalKey(ts[i].key) == k {
          var i :| 0 <= i < |ts| && NormalKey(ts[i].key) == k;
          assert NormalKey(init[i].key) == k;
        }
      }
      forall i | 0 <= i < |ts|
        ensures RowsMap(ts, fixtureData)[NormalKey(ts[i].key)] == LoadResult(ts[i].fixture, fixtureData)
      {
        if i < |ts| - 1 {
          assert init[i] == ts[i];
        }
      }
    }
  }

  /** Loading through loadAll() keys `_rows` by list position: after the
      first n tables the keys are exactly 0 .. n-1, and key i holds table i's
      rows. A table is found by its position (or the position's string form,
      which PHP turns into the integer; see StringKeyIsInteger) and not by
      its name. */
  lemma LoadAllKeysArePositions(tables: seq<string>, n: nat, fixtureData: map<string, Table>)
    requires n <= |tables|
    ensures forall k :: k in RowsMap(Positional(tables)[..n], fixtureData) <==> k.Index? && 0 <= k.i < n
    ensures forall i :: 0 <= i < n ==>
              RowsMap(Positional(tables)[..n], fixtureData)[Index(i)] == LoadResult(tables[i], fixtureData)
  {
    var ts := Positional(tables)[..n];
    assert forall i :: 0 <= i < n ==> NormalKey(ts[i].key) == Index(i);
    RowsMapAt(ts, fixtureData);
    forall k: Key | k.Index? && 0 <= k.i < n
      ensures k in RowsMap(ts, fixtureData)
    {
      assert NormalKey(ts[k.i].key) == k;
    }
  }

  /** How many fixtures, from the front, name a table the test database
      has: the number load() gets through before it throws. */
  function LoadablePrefix(ts: seq<Entry>, testTables: set<string>): (n: nat)
    ensures n <= |ts|
    ensures forall i :: 0 <= i < n ==> ts[i].fixture in testTables
    ensures n < |ts| ==> ts[n].fixture !in testTables
    decreases |ts|
  {
    if ts == [] || ts[0].fixture !in testTables then 0
    else 1 + LoadablePrefix(ts[1..], testTables)
  }

  // ---------------------------------------------------------------------
  // The manager

  class FixtureManager {
    var db: DbRef
    var fixtureDb: Option<string>
    var skipTables: seq<string>
    /** `_rows` and `_models`. */
    var rows: map<Key, LoadedRows>
    var models: map<Key, string>
    /** Whether foreign key checks are on in the test database. */
    var integrity: bool
    /** The test database: its tables' rows and sequence values. */
    var testDb: map<string, Table>
    var sequences: map<string, int>
    /** The statements sent so far. */
    var commands: seq<Command>
    /** The database `fixtureDb` names. */
    var fixtureData: map<string, Table>

    constructor (db: DbRef, fixtureDb: Option<string>, testDb: map<string, Table>,
                 sequences: map<string, int>, fixtureData: map<string, Table>)
      ensures this.db == db && this.fixtureDb == fixtureDb && skipTables == DefaultSkipTables
      ensures this.testDb == testDb && this.sequences == sequences && this.fixtureData == fixtureData
      ensures rows == map[] && models == map[] && integrity && commands == []
    {
      this.db := db;
      this.fixtureDb := fixtureDb;
      skipTables := DefaultSkipTables;
      rows, models := map[], map[];
      integrity := true;
      this.testDb := testDb;
      this.sequences := sequences;
      commands := [];
      this.fixtureData := fixtureData;
    }

    /** init(): resolve `db`, then require a connection and a fixture
        database name, in that order. */
    method Init(components: map<string, Component>) returns (r: Outcome<Error>)
      modifies this`db
      ensures db == ResolveDb(old(db), components)
      ensures r.Pass? <==> IsConnection(db) && Truthy(fixtureDb)
      ensures !IsConnection(db) ==> r == Fail(DbNotConnection)
      ensures IsConnection(db) && !Truthy(fixtureDb) ==> r == Fail(FixtureDbNotSet)
    {
      if db.ComponentId? {
        db := if db.id in components then Instance(components[db.id]) else NullRef;
      }
      if !IsConnection(db) {
        return Fail(DbNotConnection);
      }
      if !Truthy(fixtureDb) {
        return Fail(FixtureDbNotSet);
      }
      r := Pass;
    }

    /** loadFixture($tableName). */
    method LoadFixture(table: string) returns (r: Result<LoadedRows, Error>)
      modifies this`testDb, this`sequences, this`commands
      ensures table !in old(testDb) ==>
                r == Failure(TableMissing(table)) &&
                testDb == old(testDb) && sequences == old(sequences) && commands == old(commands)
      ensures table in old(testDb) ==>
                && r == Success(LoadResult(table, fixtureData))
                && testDb == CopyTable(old(testDb), table, fixtureData)
                && sequences == SequenceResetTo1(old(sequences), table, fixtureData)
                && commands == old(commands) + FixtureCommands(table, fixtureData)
    {
      if table !in testDb {
        return Failure(TableMissing(table));
      }
      commands := commands + [Probe(table)];
      if table !in fixtureData {
        return Success(NotLoaded);
      }
      commands := commands + [Truncate(table)];
      testDb := testDb[table := []];
      commands := commands + [ResetSequence(table, 1)];
      sequences := sequences[table := 1];
      commands := commands + [CopyRows(table)];
      assert testDb[table] + fixtureData[table] == fixtureData[table];
      testDb := testDb[table := testDb[table] + fixtureData[table]];
      commands := commands + [SelectRows(table)];
      r := Success(Rows(fixtureData[table]));
    }

    /** What load(fixtures) leaves behind, with its outcome `r`. */
    twostate predicate LoadEffect(fixtures: seq<Entry>, classes: map<string, ClassKind>, new r: Outcome<Error>)
      reads this
    {
      if !AllResolve(fixtures, classes) then
        && r == Fail(ResolveFixture(fixtures[FirstFailure(fixtures, classes)].fixture, classes).error)
        && rows == old(rows) && models == old(models) && integrity == old(integrity)
        && testDb == old(testDb) && sequences == old(sequences) && commands == old(commands)
      else
        TablesLoaded(Converted(fixtures, classes), r)
    }

    /** What the second loop of load() leaves behind, after the conversion
        succeeded with `tables`: every fixture up to the first one whose table
        the test database lacks is loaded, and integrity checks are back on
        only if all were. */
    twostate predicate TablesLoaded(tables: seq<Entry>, new r: Outcome<Error>)
      reads this
    {
      var n := LoadablePrefix(tables, old(testDb).Keys);
      && models == map[]
      && rows == RowsMap(tables[..n], fixtureData)
      && testDb == CopyAll(old(testDb), tables[..n], fixtureData)
      && sequences == ResetAll(old(sequences), tables[..n], fixtureData)
      && commands == old(commands) + [CheckIntegrity(false)] + LoadCommands(tables[..n], fixtureData)
                     + (if n == |tables| then [CheckIntegrity(true)] else [])
      && integrity == (n == |tables|)
      && r == (if n == |tables| then Pass else Fail(TableMissing(tables[n].fixture)))
    }

    /** load($fixtures): convert class names, then load the tables. */
    method Load(fixtures: seq<Entry>, classes: map<string, ClassKind>) returns (r: Outcome<Error>)
      modifies this`rows, this`models, this`integrity, this`testDb, this`sequences, this`commands
      ensures LoadEffect(fixtures, classes, r)
    {
      var converted := ConvertFixtures(fixtures, classes);
      if converted.Failure? {
        return Fail(converted.error);
      }
      r := LoadTables(converted.value);
    }

    /** The rest of load(): reset `_rows` and `_models`, switch integrity
        checks off, load every fixture in order and switch them back on. An
        exception from a fixture leaves them off. */
    method LoadTables(tables: seq<Entry>) returns (r: Outcome<Error>)
      modifies this`rows, this`models, this`integrity, this`testDb, this`sequences, this`commands
      ensures TablesLoaded(tables, r)
    {
      rows, models := map[], map[];
      integrity := false;
      commands := commands + [CheckIntegrity(false)];
      ghost var db0, seq0, cmd0 := testDb, sequences, commands;
      ghost var n := LoadablePrefix(tables, db0.Keys);
      var i := 0;
      while i < |tables|
        invariant 0 <= i <= n
        invariant Progress(tables[..i], db0, seq0, cmd0)
        invariant models == map[] && !integrity
      {
        assert tables[..i + 1] == tables[..i] + [tables[i]];
        var ok := LoadEntry(tables[i], tables[..i], db0, seq0, cmd0);
        if !ok {
          assert i == n;
          assert commands + [] == commands;
          return Fail(TableMissing(tables[i].fixture));
        }
        i := i + 1;
      }
      assert tables[..|tables|] == tables && n == |tables|;
      integrity := true;
      commands := commands + [CheckIntegrity(true)];
      r := Pass;
    }

    /** The state after the fixtures `done` have been loaded, starting from
        the test database `db0`, the sequences `seq0` and the statements
        `cmd0`. */
    ghost predicate Progress(done: seq<Entry>, db0: map<string, Table>, seq0: map<string, int>, cmd0: seq<Command>)
      reads this
    {
      && rows == RowsMap(done, fixtureData)
      && testDb == CopyAll(db0, done, fixtureData)
      && sequences == ResetAll(seq0, done, fixtureData)
      && commands == cmd0 + LoadCommands(done, fixtureData)
    }

    /** One turn of the second loop of load(): `$this->_rows[$name] =
        $this->loadFixture($tableName)`. `ok` is false when loadFixture()
        threw, and then nothing has changed. */
    method LoadEntry(e: Entry, ghost done: seq<Entry>, ghost db0: map<string, Table>,
                     ghost seq0: map<string, int>, ghost cmd0: seq<Command>) returns (ok: bool)
      requires Progress(done, db0, seq0, cmd0)
      modifies this`rows, this`testDb, this`sequences, this`commands
      ensures ok <==> e.fixture in db0
      ensures ok ==> Progress(done + [e], db0, seq0, cmd0)
      ensures !ok ==> Progress(done, db0, seq0, cmd0)
    {
      CopyAllAt(db0, done, fixtureData, e.fixture);
      LoadSnoc(done, e, db0, seq0, fixtureData);
      ghost var commands0 := commands;
      var loaded := LoadFixture(e.fixture);
      if loaded.Failure? {
        return false;
      }
      assert commands == cmd0 + (LoadCommands(done, fixtureData) + FixtureCommands(e.fixture, fixtureData)) by {
        assert commands == commands0 + FixtureCommands(e.fixture, fixtureData);
      }
      rows := rows[NormalKey(e.key) := loaded.value];
      ok := true;
    }

    /** loadAll(): load every table of the test database (`tableNames`, in
        schema order) that is not in `skipTables`, as a PHP list. */
    method LoadAll(tableNames: seq<string>, classes: map<string, ClassKind>) returns (r: Outcome<Error>)
      modifies this`rows, this`models, this`integrity, this`testDb, this`sequences, this`commands
      ensures LoadEffect(Positional(Kept(tableNames, old(skipTables))), classes, r)
    {
      var fixtures, skip := SplitTables(tableNames, skipTables);
      r := Load(Positional(fixtures), classes);
    }

    /** getRows($fixtureName): the rows stored under the key PHP makes of
        the name (a decimal string finds an integer key), or false for an
        unknown one; a fixture that was skipped stored false itself. */
    function GetRows(name: Key): (r: LoadedRows)
      reads this
      ensures NormalKey(name) in rows ==> r == rows[NormalKey(name)]
      ensures NormalKey(name) !in rows ==> r == NotLoaded
    {
      var key := NormalKey(name);
      if key in rows then rows[key] else NotLoaded
    }
  }
}
