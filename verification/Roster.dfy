/** The merged roster of students (configuration file, database, Google Sheet) with its ids, and the deletion
    of a sheet student by the negative id the roster gave it. */
module Roster {
  import opened Common
  import opened StableSort

  /** An absent id is 0; ids from the database are positive.  `sentLevel` is what the deletion sends: the level if the
      row has that entry at all, even an empty one, else the entry `exam_level`. */
  datatype Student = Student(id: int, name: string, level: string, sentLevel: string, city: string, booking: string)

  datatype Key = Key(name: string, level: string, city: string)

  function KeyOf(s: Student): Key { Key(s.name, s.level, s.city) }

  function SentKey(s: Student): Key { Key(s.name, s.sentLevel, s.city) }

  // ---------------------------------------------------------------------------
  // Text.
  // ---------------------------------------------------------------------------

  predicate IsSpace(c: char) { c == ' ' || c == '\t' || c == '\n' || c == '\r' }

  function StripLeft(s: string): (r: string)
    ensures r != [] ==> !IsSpace(r[0])
    ensures s != [] && !IsSpace(s[0]) ==> r == s
  {
    if s != [] && IsSpace(s[0]) then StripLeft(s[1..]) else s
  }

  function StripRight(s: string): (r: string)
    ensures r != [] ==> !IsSpace(r[|r| - 1])
    ensures s != [] && !IsSpace(s[|s| - 1]) ==> r == s
    ensures |r| <= |s| && r == s[..|r|]
  {
    if s != [] && IsSpace(s[|s| - 1]) then StripRight(s[..|s| - 1]) else s
  }

  function Strip(s: string): string { StripRight(StripLeft(s)) }

  lemma StripTwice(s: string)
    ensures Strip(Strip(s)) == Strip(s)
  {
  }

  function LowerKey(k: Key): Key { Key(Lower(k.name), Lower(k.level), Lower(k.city)) }

  // ---------------------------------------------------------------------------
  // The sheet.
  // ---------------------------------------------------------------------------

  /** The cleaned header row, and the data rows as they are. */
  datatype Sheet = Sheet(headers: seq<string>, rows: seq<seq<string>>)

  /** `headers.index(col)`, -1 if there is no such column. */
  function Column(headers: seq<string>, col: string): (i: int)
    ensures -1 <= i < |headers|
    ensures i >= 0 ==> headers[i] == col && forall j :: 0 <= j < i ==> headers[j] != col
    ensures i < 0 ==> col !in headers
  {
    if headers == [] then -1
    else if headers[0] == col then 0
    else if Column(headers[1..], col) < 0 then -1
    else Column(headers[1..], col) + 1
  }

  function Cell(row: seq<string>, i: int): string { if 0 <= i < |row| then Strip(row[i]) else "" }

  /** The dictionary of a row: later columns of the same name win, and missing cells leave no entry. */
  function Fields(headers: seq<string>, row: seq<string>, n: nat): map<string, string>
    requires n <= |row|
  {
    if n == 0 then map[]
    else
      var before := Fields(headers, row, n - 1);
      if n - 1 < |headers| then before[headers[n - 1] := Strip(row[n - 1])] else before
  }

  function Field(d: map<string, string>, col: string): string { if col in d then d[col] else "" }

  predicate IsBlank(row: seq<string>) { forall i :: 0 <= i < |row| ==> Strip(row[i]) == "" }

  function Parse(headers: seq<string>, row: seq<string>): Student {
    var d := Fields(headers, row, |row|);
    var sent := if "level" in d then d["level"] else Field(d, "exam_level");
    Student(0, Field(d, "name"), Field(d, "level"), sent, Field(d, "city"), Field(d, "booking_datetime"))
  }

  predicate IsStudentRow(headers: seq<string>, row: seq<string>) {
    !IsBlank(row) && Parse(headers, row).name != ""
  }

  /** `load_sheet_data`, freshly read. */
  function LoadSheet(sheet: Sheet): seq<Student> { LoadRows(sheet.headers, sheet.rows) }

  function LoadRows(headers: seq<string>, rows: seq<seq<string>>): seq<Student> {
    if rows == [] then []
    else
      var front := LoadRows(headers, rows[..|rows| - 1]);
      if IsStudentRow(headers, rows[|rows| - 1]) then front + [Parse(headers, rows[|rows| - 1])] else front
  }

  predicate Matches(headers: seq<string>, row: seq<string>, k: Key) {
    && Lower(Cell(row, Column(headers, "name"))) == Lower(Strip(k.name))
    && (k.level != "" ==> Lower(Cell(row, Column(headers, "level"))) == Lower(Strip(k.level)))
    && (k.city != "" ==> Lower(Cell(row, Column(headers, "city"))) == Lower(Strip(k.city)))
  }

  /** The first matching row, or `|rows|`. */
  function FirstMatch(headers: seq<string>, rows: seq<seq<string>>, k: Key): (i: nat)
    ensures i <= |rows| && (i < |rows| ==> Matches(headers, rows[i], k))
    ensures forall j :: 0 <= j < i ==> !Matches(headers, rows[j], k)
  {
    if rows == [] then 0
    else if Matches(headers, rows[0], k) then 0
    else
      var rest := FirstMatch(headers, rows[1..], k);
      assert forall j :: 0 < j < |rows| ==> rows[j] == rows[1..][j - 1];
      rest + 1
  }

  /** `google_sheets.delete_student`: `None` is any of its errors. */
  function DeleteFromSheet(sheet: Sheet, k: Key): Option<Sheet> {
    if Strip(k.name) == "" || sheet.rows == [] || Column(sheet.headers, "name") < 0 then None
    else
      var i := FirstMatch(sheet.headers, sheet.rows, k);
      if i == |sheet.rows| then None else Some(sheet.(rows := sheet.rows[..i] + sheet.rows[i + 1..]))
  }

  // ---------------------------------------------------------------------------
  // The roster.
  // ---------------------------------------------------------------------------

  function Keys(students: seq<Student>): set<Key> { set s | s in students :: KeyOf(s) }

  /** Sheet students whose key has not been seen are appended. */
  function AddSheet(students: seq<Student>, sheet: seq<Student>): seq<Student>
    decreases |sheet|
  {
    if sheet == [] then students
    else
      var front := AddSheet(students, sheet[..|sheet| - 1]);
      var s := sheet[|sheet| - 1];
      if KeyOf(s) in Keys(front) then front else front + [s]
  }

  /** Entries without an id get the negative of their position, counted from 1. */
  function WithIds(students: seq<Student>): seq<Student> {
    seq(|students|, i requires 0 <= i < |students| =>
      if students[i].id == 0 then students[i].(id := -(i + 1)) else students[i])
  }

  const NO_BOOKING := "9999-12-31T23:59"

  function SortKey(s: Student): string { if s.booking == "" then NO_BOOKING else s.booking }

  predicate LexLe(a: string, b: string) {
    a == [] || (b != [] && (a[0] < b[0] || (a[0] == b[0] && LexLe(a[1..], b[1..]))))
  }

  function ByBooking(): (Student, Student) -> bool { (x: Student, y: Student) => LexLe(SortKey(x), SortKey(y)) }

  function Merged(config: seq<Student>, database: seq<Student>, sheet: Sheet): seq<Student> {
    WithIds(AddSheet(config + database, LoadSheet(sheet)))
  }

  function Load(config: seq<Student>, database: seq<Student>, sheet: Sheet): seq<Student> {
    Sort(Merged(config, database, sheet), ByBooking())
  }

  lemma {:induction false} LexTotal(a: string, b: string)
    ensures LexLe(a, b) || LexLe(b, a)
  {
    if a != [] && b != [] && a[0] == b[0] {
      LexTotal(a[1..], b[1..]);
    }
  }

  lemma {:induction false} LexTransitive(a: string, b: string, c: string)
    requires LexLe(a, b) && LexLe(b, c)
    ensures LexLe(a, c)
  {
    if a != [] && a[0] == b[0] == c[0] {
      LexTransitive(a[1..], b[1..], c[1..]);
    }
  }

  lemma BookingIsPreorder()
    ensures Preorder(ByBooking())
  {
    forall x, y
      ensures ByBooking()(x, y) || ByBooking()(y, x)
    {
      LexTotal(SortKey(x), SortKey(y));
    }
    forall x, y, z | ByBooking()(x, y) && ByBooking()(y, z)
      ensures ByBooking()(x, z)
    {
      LexTransitive(SortKey(x), SortKey(y), SortKey(z));
    }
  }

  // The order of the roster.

  predicate LessAt(a: string, b: string, k: nat) { k < |a| && k < |b| && a[..k] == b[..k] && a[k] < b[k] }

  /** Python's order of strings: a proper beginning is less, otherwise the first difference decides. */
  lemma {:induction false} LexLeIff(a: string, b: string)
    ensures LexLe(a, b) <==> a <= b || exists k: nat :: LessAt(a, b, k)
  {
    if a == [] || b == [] {
    } else if a[0] != b[0] {
      FirstDiffers(a, b);
    } else {
      LexLeIff(a[1..], b[1..]);
      DifferenceShifts(a, b);
    }
  }

  lemma FirstDiffers(a: string, b: string)
    requires a != [] && b != [] && a[0] != b[0]
    ensures !(a <= b)
    ensures (exists k: nat :: LessAt(a, b, k)) <==> a[0] < b[0]
  {
    if a[0] < b[0] {
      assert LessAt(a, b, 0);
    }
    forall k | 0 < k < |a| && k < |b|
      ensures a[..k] != b[..k]
    {
      assert a[..k][0] != b[..k][0];
    }
  }

  lemma DifferenceShifts(a: string, b: string)
    requires a != [] && b != [] && a[0] == b[0]
    ensures a <= b <==> a[1..] <= b[1..]
    ensures (exists k: nat :: LessAt(a, b, k)) <==> exists k: nat :: LessAt(a[1..], b[1..], k)
  {
    var c, d := a[1..], b[1..];
    assert a == [a[0]] + c && b == [b[0]] + d;
    if k: nat :| LessAt(a, b, k) {
      assert a[..k][1..] == c[..k - 1] && b[..k][1..] == d[..k - 1];
      assert LessAt(c, d, k - 1);
    }
    if k: nat :| LessAt(c, d, k) {
      assert a[..k + 1] == [a[0]] + c[..k] && b[..k + 1] == [b[0]] + d[..k];
      assert LessAt(a, b, k + 1);
    }
  }

  /** Earlier booking times come first; a missing one counts as the end of the year 9999, behind every time whose year
      does not start with a nine. */
  lemma RosterOrder(config: seq<Student>, database: seq<Student>, sheet: Sheet, i: nat, j: nat)
    requires i < j < |Load(config, database, sheet)|
    ensures var x, y := Load(config, database, sheet)[i], Load(config, database, sheet)[j];
            && (x.booking != "" && y.booking != "" ==> LexLe(x.booking, y.booking))
            && (x.booking == "" && y.booking != "" ==> LexLe("9999-12-31T23:59", y.booking))
            && (x.booking == "" && y.booking != "" ==> y.booking[0] >= '9')
  {
    RosterIsStableMerge(config, database, sheet);
    var l := Load(config, database, sheet);
    assert ByBooking()(l[i], l[j]);
  }

  /** What is loaded from outside: configuration entries carry no id, database ids are positive and distinct. */
  ghost predicate SourcesOk(config: seq<Student>, database: seq<Student>) {
    && (forall s :: s in config ==> s.id == 0)
    && (forall i :: 0 <= i < |database| ==> database[i].id > 0)
    && (forall i, j :: 0 <= i < j < |database| ==> database[i].id != database[j].id)
  }

  function IdOf(s: Student): int { s.id }

  ghost predicate DistinctIds(students: seq<Student>) { DistinctBy(students, IdOf) }

  /** The merge keeps the first two sources as they are and appends only entries without ids. */
  lemma {:induction false} SheetOnlyAppends(students: seq<Student>, sheet: seq<Student>)
    requires forall s :: s in sheet ==> s.id == 0
    ensures var m := AddSheet(students, sheet);
            students <= m && forall i :: |students| <= i < |m| ==> m[i].id == 0 && m[i] in sheet
    decreases |sheet|
  {
    if sheet == [] {
    } else {
      var n := |sheet| - 1;
      assert forall s :: s in sheet[..n] ==> s in sheet;
      SheetOnlyAppends(students, sheet[..n]);
      assert sheet[n] in sheet;
    }
  }

  lemma {:induction false} LoadedHaveNoIds(headers: seq<string>, rows: seq<seq<string>>)
    ensures forall s :: s in LoadRows(headers, rows) ==> s.id == 0 && s.name != ""
  {
    if rows == [] {
    } else {
      LoadedHaveNoIds(headers, rows[..|rows| - 1]);
    }
  }

  lemma MergedIdsDistinct(config: seq<Student>, database: seq<Student>, sheet: Sheet)
    requires SourcesOk(config, database)
    ensures DistinctIds(Merged(config, database, sheet))
  {
    var base := config + database;
    var m := AddSheet(base, LoadSheet(sheet));
    LoadedHaveNoIds(sheet.headers, sheet.rows);
    SheetOnlyAppends(base, LoadSheet(sheet));
    forall i | 0 <= i < |m|
      ensures m[i].id == if |config| <= i < |base| then database[i - |config|].id else 0
    {
      if i < |base| {
        assert m[i] == base[i];
        if i < |config| { assert config[i] in config; }
      }
    }
  }

  // ---------------------------------------------------------------------------
  // The loaded roster.
  // ---------------------------------------------------------------------------

  /** The roster is the stable sort by booking time, missing times last, of the merged sources, and no two of
      its entries have the same id. */
  lemma RosterIsStableMerge(config: seq<Student>, database: seq<Student>, sheet: Sheet)
    ensures IsStableSort(Merged(config, database, sheet), Load(config, database, sheet), ByBooking())
    ensures multiset(Load(config, database, sheet)) == multiset(Merged(config, database, sheet))
    ensures SourcesOk(config, database) ==> DistinctIds(Load(config, database, sheet))
  {
    var m := Merged(config, database, sheet);
    BookingIsPreorder();
    SortIsStable(m, ByBooking());
    SortMultiset(m, ByBooking());
    if SourcesOk(config, database) {
      MergedIdsDistinct(config, database, sheet);
      SortDistinct(m, ByBooking(), IdOf);
    }
  }

  /** Sheet students whose key occurs neither in the other sources nor earlier in the sheet. */
  function FirstSeen(students: seq<Student>, sheet: seq<Student>): seq<Student> {
    if sheet == [] then []
    else
      var n := |sheet| - 1;
      FirstSeen(students, sheet[..n]) +
      if KeyOf(sheet[n]) in Keys(students) + Keys(sheet[..n]) then [] else [sheet[n]]
  }

  lemma KeysAppend(s: seq<Student>, x: Student)
    ensures Keys(s + [x]) == Keys(s) + {KeyOf(x)}
  {
  }

  lemma {:induction false} MergedKeys(students: seq<Student>, sheet: seq<Student>)
    ensures Keys(AddSheet(students, sheet)) == Keys(students) + Keys(sheet)
  {
    if sheet == [] {
      assert Keys(sheet) == {};
    } else {
      var n := |sheet| - 1;
      MergedKeys(students, sheet[..n]);
      KeysAppend(sheet[..n], sheet[n]);
      KeysAppend(AddSheet(students, sheet[..n]), sheet[n]);
      assert sheet == sheet[..n] + [sheet[n]];
    }
  }

  /** The growing set of seen keys does what looking back over the whole input would do. */
  lemma {:induction false} MergeKeepsFirstSeen(students: seq<Student>, sheet: seq<Student>)
    ensures AddSheet(students, sheet) == students + FirstSeen(students, sheet)
  {
    if sheet == [] {
    } else {
      var n := |sheet| - 1;
      MergeKeepsFirstSeen(students, sheet[..n]);
      MergedKeys(students, sheet[..n]);
    }
  }

  // ---------------------------------------------------------------------------
  // Deleting a sheet student.
  // ---------------------------------------------------------------------------

  function FindById(students: seq<Student>, id: int): Option<Student> {
    if students == [] then None
    else if students[0].id == id then Some(students[0])
    else FindById(students[1..], id)
  }

  /** The negative-id branch of `api_delete_student`: the id is looked up in a freshly built roster, and the first row
      of the sheet that matches the key sent goes. */
  function DeleteById(config: seq<Student>, database: seq<Student>, sheet: Sheet, id: int): Option<Sheet>
    requires id < 0
  {
    var s := FindById(Load(config, database, sheet), id);
    if s.None? then None else DeleteFromSheet(sheet, SentKey(s.value))
  }

  predicate AtMostOnce(headers: seq<string>, col: string) {
    forall i, j :: 0 <= i < j < |headers| ==> headers[i] != col || headers[j] != col
  }

  predicate PlainHeaders(headers: seq<string>) {
    AtMostOnce(headers, "name") && AtMostOnce(headers, "level") && AtMostOnce(headers, "city")
  }

  lemma {:induction false} FieldsAt(headers: seq<string>, row: seq<string>, n: nat, col: string)
    requires n <= |row| && AtMostOnce(headers, col)
    ensures var c := Column(headers, col);
            Field(Fields(headers, row, n), col) == if 0 <= c < n then Strip(row[c]) else ""
  {
    if n == 0 {
    } else {
      FieldsAt(headers, row, n - 1, col);
    }
  }

  /** Reading a row into a dictionary and indexing it by column give the same field if the column is unique, and
      the field is already stripped. */
  lemma ReadersAgree(headers: seq<string>, row: seq<string>, col: string)
    requires AtMostOnce(headers, col)
    ensures Field(Fields(headers, row, |row|), col) == Cell(row, Column(headers, col))
    ensures Strip(Cell(row, Column(headers, col))) == Cell(row, Column(headers, col))
  {
    FieldsAt(headers, row, |row|, col);
    var c := Column(headers, col);
    if 0 <= c < |row| {
      StripTwice(row[c]);
    }
  }

  /** What the deletion compares, in terms of parsed students: empty level or city match anything. */
  predicate Agrees(s: Student, k: Key) {
    && Lower(s.name) == Lower(k.name)
    && (k.level != "" ==> Lower(s.level) == Lower(k.level))
    && (k.city != "" ==> Lower(s.city) == Lower(k.city))
  }

  lemma ParsedMatches(headers: seq<string>, row: seq<string>, k: Key)
    requires PlainHeaders(headers) && IsStripped(k)
    ensures Matches(headers, row, k) <==> Agrees(Parse(headers, row), k)
  {
    ReadersAgree(headers, row, "name");
    ReadersAgree(headers, row, "level");
    ReadersAgree(headers, row, "city");
  }

  lemma {:induction false} FieldIsStripped(headers: seq<string>, row: seq<string>, n: nat, col: string)
    requires n <= |row|
    ensures Strip(Field(Fields(headers, row, n), col)) == Field(Fields(headers, row, n), col)
  {
    if n == 0 {
    } else {
      FieldIsStripped(headers, row, n - 1, col);
      StripTwice(row[n - 1]);
    }
  }

  predicate IsStripped(k: Key) { Strip(k.name) == k.name && Strip(k.level) == k.level && Strip(k.city) == k.city }

  lemma ParsedIsStripped(headers: seq<string>, row: seq<string>)
    ensures IsStripped(KeyOf(Parse(headers, row))) && IsStripped(SentKey(Parse(headers, row)))
  {
    FieldIsStripped(headers, row, |row|, "name");
    FieldIsStripped(headers, row, |row|, "level");
    FieldIsStripped(headers, row, |row|, "exam_level");
    FieldIsStripped(headers, row, |row|, "city");
  }

  /** Only rows that are students can agree with a student. */
  lemma AgreeingIsStudent(headers: seq<string>, row: seq<string>, k: Key)
    requires PlainHeaders(headers) && k.name != "" && Agrees(Parse(headers, row), k)
    ensures IsStudentRow(headers, row)
  {
    ReadersAgree(headers, row, "name");
    assert |Lower(k.name)| == |k.name|;
    assert |Lower(Parse(headers, row).name)| == |Parse(headers, row).name|;
  }

  function WithoutRow(sheet: Sheet, i: nat): Sheet
    requires i < |sheet.rows|
  {
    sheet.(rows := sheet.rows[..i] + sheet.rows[i + 1..])
  }

  lemma MatchesAreAgreeing(headers: seq<string>, rows: seq<seq<string>>, i: nat)
    requires PlainHeaders(headers) && i < |rows|
    ensures var k := KeyOf(Parse(headers, rows[i]));
            Matches(headers, rows[i], k) &&
            forall j :: 0 <= j < |rows| ==> (Matches(headers, rows[j], k) <==> Agrees(Parse(headers, rows[j]), k))
  {
    var k := KeyOf(Parse(headers, rows[i]));
    ParsedIsStripped(headers, rows[i]);
    forall j | 0 <= j < |rows|
      ensures Matches(headers, rows[j], k) <==> Agrees(Parse(headers, rows[j]), k)
    {
      ParsedMatches(headers, rows[j], k);
    }
  }

  ghost predicate NoneEarlierAgrees(sheet: Sheet, i: nat, k: Key)
    requires i <= |sheet.rows|
  {
    forall j :: 0 <= j < i ==> !Agrees(Parse(sheet.headers, sheet.rows[j]), k)
  }

  /** Deleting the student of row `i` takes that very row exactly when no earlier student agrees with its key. */
  lemma DeletesOwnRowIff(sheet: Sheet, i: nat)
    requires PlainHeaders(sheet.headers) && i < |sheet.rows|
    ensures var k := KeyOf(Parse(sheet.headers, sheet.rows[i]));
            var first := FirstMatch(sheet.headers, sheet.rows, k);
            first <= i && (first == i <==> NoneEarlierAgrees(sheet, i, k))
  {
    MatchesAreAgreeing(sheet.headers, sheet.rows, i);
  }

  /** The deletion succeeds for every student of the sheet. */
  lemma StudentRowIsDeleted(sheet: Sheet, i: nat)
    requires PlainHeaders(sheet.headers) && i < |sheet.rows| && IsStudentRow(sheet.headers, sheet.rows[i])
    ensures var k := KeyOf(Parse(sheet.headers, sheet.rows[i]));
            var first := FirstMatch(sheet.headers, sheet.rows, k);
            first < |sheet.rows| && DeleteFromSheet(sheet, k) == Some(WithoutRow(sheet, first))
  {
    DeletesOwnRowIff(sheet, i);
    NamedDeletion(sheet, i, KeyOf(Parse(sheet.headers, sheet.rows[i])));
  }

  /** The first row whose student has exactly this key, or `|rows|`. */
  function OwnRow(headers: seq<string>, rows: seq<seq<string>>, k: Key): (i: nat)
    ensures i <= |rows|
    ensures i < |rows| ==> IsStudentRow(headers, rows[i]) && KeyOf(Parse(headers, rows[i])) == k
  {
    if rows == [] then 0
    else if IsStudentRow(headers, rows[0]) && KeyOf(Parse(headers, rows[0])) == k then 0
    else OwnRow(headers, rows[1..], k) + 1
  }

  lemma {:induction false} LoadAppend(headers: seq<string>, rows: seq<seq<string>>, more: seq<seq<string>>)
    ensures LoadRows(headers, rows + more) == LoadRows(headers, rows) + LoadRows(headers, more)
  {
    if more == [] {
      assert rows + more == rows;
    } else {
      var n := |more| - 1;
      LoadAppend(headers, rows, more[..n]);
      var all := rows + more;
      assert all[..|all| - 1] == rows + more[..n] && all[|all| - 1] == more[n];
    }
  }

  lemma LoadOne(headers: seq<string>, row: seq<string>)
    ensures LoadRows(headers, [row]) == if IsStudentRow(headers, row) then [Parse(headers, row)] else []
  {
  }

  lemma {:induction false} OwnRowExists(headers: seq<string>, rows: seq<seq<string>>, s: Student)
    requires s in LoadRows(headers, rows)
    ensures OwnRow(headers, rows, KeyOf(s)) < |rows|
  {
    if rows == [] {
    } else {
      assert rows == [rows[0]] + rows[1..];
      LoadAppend(headers, [rows[0]], rows[1..]);
      LoadOne(headers, rows[0]);
      if !(IsStudentRow(headers, rows[0]) && KeyOf(Parse(headers, rows[0])) == KeyOf(s)) {
        OwnRowExists(headers, rows[1..], s);
      }
    }
  }

  lemma {:induction false} FindUnique(students: seq<Student>, s: Student)
    requires DistinctIds(students) && s in students
    ensures FindById(students, s.id) == Some(s)
  {
    if students[0] != s {
      var j :| 0 < j < |students| && students[j] == s;
      assert students[1..][j - 1] == s;
      FindUnique(students[1..], s);
    }
  }

  lemma KeysWithIds(students: seq<Student>)
    ensures Keys(WithIds(students)) == Keys(students)
  {
    var w := WithIds(students);
    forall k | k in Keys(students)
      ensures k in Keys(w)
    {
      var p :| 0 <= p < |students| && KeyOf(students[p]) == k;
      assert KeyOf(w[p]) == k && w[p] in w;
    }
    forall k | k in Keys(w)
      ensures k in Keys(students)
    {
      var p :| 0 <= p < |w| && KeyOf(w[p]) == k;
      assert KeyOf(students[p]) == k && students[p] in students;
    }
  }

  /** The keys of the roster are those of the three sources. */
  lemma RosterKeys(config: seq<Student>, database: seq<Student>, sheet: Sheet)
    ensures Keys(Load(config, database, sheet)) == Keys(config + database) + Keys(LoadSheet(sheet))
  {
    var m := AddSheet(config + database, LoadSheet(sheet));
    MergedKeys(config + database, LoadSheet(sheet));
    KeysWithIds(m);
    SortMembers(WithIds(m), ByBooking());
  }

  lemma InSheet(config: seq<Student>, database: seq<Student>, sheet: Sheet, r: Student)
    requires r in Load(config, database, sheet) && KeyOf(r) !in Keys(config + database)
    ensures OwnRow(sheet.headers, sheet.rows, KeyOf(r)) < |sheet.rows|
  {
    RosterKeys(config, database, sheet);
    assert KeyOf(r) in Keys(Load(config, database, sheet));
    var s :| s in LoadSheet(sheet) && KeyOf(s) == KeyOf(r);
    OwnRowExists(sheet.headers, sheet.rows, s);
  }

  lemma {:induction false} RowOfStudent(headers: seq<string>, rows: seq<seq<string>>, s: Student)
    requires s in LoadRows(headers, rows)
    ensures exists i :: 0 <= i < |rows| && IsStudentRow(headers, rows[i]) && Parse(headers, rows[i]) == s
  {
    if rows == [] {
    } else {
      var n := |rows| - 1;
      if s in LoadRows(headers, rows[..n]) {
        RowOfStudent(headers, rows[..n], s);
        var i :| 0 <= i < n && IsStudentRow(headers, rows[..n][i]) && Parse(headers, rows[..n][i]) == s;
        assert rows[i] == rows[..n][i];
      }
    }
  }

  /** A student that only the sheet has is listed as its row says, with a negative id. */
  lemma OnlyInSheet(config: seq<Student>, database: seq<Student>, sheet: Sheet, r: Student)
    requires SourcesOk(config, database)
    requires r in Load(config, database, sheet) && KeyOf(r) !in Keys(config + database)
    ensures r.id < 0
    ensures exists i :: 0 <= i < |sheet.rows| && IsStudentRow(sheet.headers, sheet.rows[i])
                        && Parse(sheet.headers, sheet.rows[i]) == r.(id := 0)
  {
    var base, m := config + database, AddSheet(config + database, LoadSheet(sheet));
    LoadedHaveNoIds(sheet.headers, sheet.rows);
    SheetOnlyAppends(base, LoadSheet(sheet));
    SortMembers(WithIds(m), ByBooking());
    var p :| 0 <= p < |m| && WithIds(m)[p] == r;
    assert KeyOf(m[p]) == KeyOf(r);
    assert p >= |base|;
    assert m[p] == r.(id := 0);
    RowOfStudent(sheet.headers, sheet.rows, m[p]);
  }

  // Is the key that is sent the key of the student?

  lemma {:induction false} FieldsHave(headers: seq<string>, row: seq<string>, n: nat, col: string)
    requires n <= |row|
    ensures col in Fields(headers, row, n) <==> exists j :: 0 <= j < n && j < |headers| && headers[j] == col
  {
    if n == 0 {
    } else {
      FieldsHave(headers, row, n - 1, col);
    }
  }

  /** A level column, or at least no `exam_level` that would be sent instead. */
  predicate LevelIsSent(headers: seq<string>) { "level" in headers || "exam_level" !in headers }

  /** All rows are as wide as the header row, as the worksheet delivers them. */
  ghost predicate Padded(headers: seq<string>, rows: seq<seq<string>>) {
    forall i :: 0 <= i < |rows| ==> |rows[i]| == |headers|
  }

  lemma SentIsOwn(headers: seq<string>, row: seq<string>)
    requires |row| == |headers| && LevelIsSent(headers)
    ensures SentKey(Parse(headers, row)) == KeyOf(Parse(headers, row))
  {
    FieldsHave(headers, row, |row|, "level");
    FieldsHave(headers, row, |row|, "exam_level");
  }

  /** Without a level column, any level that is sent matches no row. */
  lemma SentInVain(headers: seq<string>, rows: seq<seq<string>>, k: Key)
    requires "level" !in headers && IsStripped(k) && k.level != ""
    ensures FirstMatch(headers, rows, k) == |rows|
  {
    forall i | 0 <= i < |rows|
      ensures !Matches(headers, rows[i], k)
    {
      assert |Lower(k.level)| == |k.level| && |Lower("")| == 0;
    }
  }

  /** A student of the roster that only the sheet has.  Its id is negative and finds it again on the same snapshot.
      With a header row that sends its level, the row deleted is its own one exactly when no earlier row agrees with
      its key; a level sent for want of a level column deletes nothing. */
  lemma NegativeIdDeletes(config: seq<Student>, database: seq<Student>, sheet: Sheet, r: Student)
    requires SourcesOk(config, database) && PlainHeaders(sheet.headers)
    requires r in Load(config, database, sheet) && KeyOf(r) !in Keys(config + database)
    ensures var own := OwnRow(sheet.headers, sheet.rows, KeyOf(r));
            var first := FirstMatch(sheet.headers, sheet.rows, SentKey(r));
            && r.id < 0 && own < |sheet.rows|
            && DeleteById(config, database, sheet, r.id)
               == (if first < |sheet.rows| then Some(WithoutRow(sheet, first)) else None)
            && (SentKey(r) == KeyOf(r) ==> first <= own && (first == own <==> NoneEarlierAgrees(sheet, own, KeyOf(r))))
            && ("level" !in sheet.headers && r.sentLevel != "" ==> first == |sheet.rows|)
    ensures Padded(sheet.headers, sheet.rows) && LevelIsSent(sheet.headers) ==> SentKey(r) == KeyOf(r)
  {
    var h, rows := sheet.headers, sheet.rows;
    OnlyInSheet(config, database, sheet, r);
    InSheet(config, database, sheet, r);
    var i :| 0 <= i < |rows| && IsStudentRow(h, rows[i]) && Parse(h, rows[i]) == r.(id := 0);
    ParsedIsStripped(h, rows[i]);
    DeletesOwnRowIff(sheet, OwnRow(h, rows, KeyOf(r)));
    SentIsDeleted(config, database, sheet, r, i);
    if Padded(h, rows) && LevelIsSent(h) {
      SentIsOwn(h, rows[i]);
    }
    if "level" !in h && r.sentLevel != "" {
      SentInVain(h, rows, SentKey(r));
    }
  }

  lemma SentIsDeleted(config: seq<Student>, database: seq<Student>, sheet: Sheet, r: Student, i: nat)
    requires SourcesOk(config, database) && PlainHeaders(sheet.headers) && r in Load(config, database, sheet) && r.id < 0
    requires i < |sheet.rows| && IsStudentRow(sheet.headers, sheet.rows[i])
    requires Parse(sheet.headers, sheet.rows[i]) == r.(id := 0)
    ensures var first := FirstMatch(sheet.headers, sheet.rows, SentKey(r));
            DeleteById(config, database, sheet, r.id)
            == if first < |sheet.rows| then Some(WithoutRow(sheet, first)) else None
  {
    RosterIsStableMerge(config, database, sheet);
    FindUnique(Load(config, database, sheet), r);
    NamedDeletion(sheet, i, SentKey(r));
  }

  lemma NamedDeletion(sheet: Sheet, i: nat, k: Key)
    requires PlainHeaders(sheet.headers) && i < |sheet.rows| && IsStudentRow(sheet.headers, sheet.rows[i])
    requires k.name == Parse(sheet.headers, sheet.rows[i]).name
    ensures var first := FirstMatch(sheet.headers, sheet.rows, k);
            DeleteFromSheet(sheet, k) == if first < |sheet.rows| then Some(WithoutRow(sheet, first)) else None
  {
    ParsedIsStripped(sheet.headers, sheet.rows[i]);
    ReadersAgree(sheet.headers, sheet.rows[i], "name");
  }

  /** Sheet keys have no empty part and stay distinct when upper case is dropped. */
  ghost predicate GoodKeys(sheet: Sheet) {
    && (forall i :: 0 <= i < |sheet.rows| && IsStudentRow(sheet.headers, sheet.rows[i]) ==>
          Parse(sheet.headers, sheet.rows[i]).level != "" && Parse(sheet.headers, sheet.rows[i]).city != "")
    && (forall i, j :: 0 <= i < j < |sheet.rows| && IsStudentRow(sheet.headers, sheet.rows[i])
                       && IsStudentRow(sheet.headers, sheet.rows[j]) ==>
          LowerKey(KeyOf(Parse(sheet.headers, sheet.rows[i]))) != LowerKey(KeyOf(Parse(sheet.headers, sheet.rows[j]))))
  }

  lemma SameLowered(s: Student, k: Key)
    requires Agrees(s, k) && k.level != "" && k.city != ""
    ensures LowerKey(KeyOf(s)) == LowerKey(k)
  {
  }

  lemma NoneAgree(sheet: Sheet, i: nat)
    requires PlainHeaders(sheet.headers) && GoodKeys(sheet) && i < |sheet.rows|
    requires IsStudentRow(sheet.headers, sheet.rows[i])
    ensures NoneEarlierAgrees(sheet, i, KeyOf(Parse(sheet.headers, sheet.rows[i])))
  {
    var h, rows := sheet.headers, sheet.rows;
    var k := KeyOf(Parse(h, rows[i]));
    forall j | 0 <= j < i
      ensures !Agrees(Parse(h, rows[j]), k)
    {
      if Agrees(Parse(h, rows[j]), k) {
        AgreeingIsStudent(h, rows[j], k);
        SameLowered(Parse(h, rows[j]), k);
      }
    }
  }

  /** With good keys the deletion takes exactly the student's own row. */
  lemma DeletesExactlyOwnRow(config: seq<Student>, database: seq<Student>, sheet: Sheet, r: Student)
    requires SourcesOk(config, database) && PlainHeaders(sheet.headers) && GoodKeys(sheet)
    requires r in Load(config, database, sheet) && KeyOf(r) !in Keys(config + database)
    ensures var own := OwnRow(sheet.headers, sheet.rows, KeyOf(r));
            r.id < 0 && own < |sheet.rows| && DeleteById(config, database, sheet, r.id) == Some(WithoutRow(sheet, own))
  {
    NegativeIdDeletes(config, database, sheet, r);
    NoneAgree(sheet, OwnRow(sheet.headers, sheet.rows, KeyOf(r)));
    OnlyInSheet(config, database, sheet, r);
    var i :| 0 <= i < |sheet.rows| && IsStudentRow(sheet.headers, sheet.rows[i])
             && Parse(sheet.headers, sheet.rows[i]) == r.(id := 0);
    assert SentKey(r) == KeyOf(r);
  }

  /** Without its row the sheet lists the same students as before except the one, in the same order. */
  lemma OthersStay(sheet: Sheet, own: nat)
    requires own < |sheet.rows| && IsStudentRow(sheet.headers, sheet.rows[own])
    ensures var above, below := LoadRows(sheet.headers, sheet.rows[..own]), LoadRows(sheet.headers, sheet.rows[own + 1..]);
            && LoadSheet(sheet) == above + [Parse(sheet.headers, sheet.rows[own])] + below
            && LoadSheet(WithoutRow(sheet, own)) == above + below
  {
    SplitLoad(sheet.headers, sheet.rows, own);
  }

  lemma SplitLoad(headers: seq<string>, rows: seq<seq<string>>, i: nat)
    requires i < |rows| && IsStudentRow(headers, rows[i])
    ensures LoadRows(headers, rows)
            == LoadRows(headers, rows[..i]) + [Parse(headers, rows[i])] + LoadRows(headers, rows[i + 1..])
    ensures LoadRows(headers, rows[..i] + rows[i + 1..])
            == LoadRows(headers, rows[..i]) + LoadRows(headers, rows[i + 1..])
  {
    assert rows == rows[..i] + [rows[i]] + rows[i + 1..];
    LoadAppend(headers, rows[..i] + [rows[i]], rows[i + 1..]);
    LoadAppend(headers, rows[..i], [rows[i]]);
    LoadOne(headers, rows[i]);
    LoadAppend(headers, rows[..i], rows[i + 1..]);
  }

  lemma {:induction false} StudentHasRow(headers: seq<string>, rows: seq<seq<string>>, k: Key)
    requires k in Keys(LoadRows(headers, rows))
    ensures exists i :: 0 <= i < |rows| && IsStudentRow(headers, rows[i]) && KeyOf(Parse(headers, rows[i])) == k
  {
    var s :| s in LoadRows(headers, rows) && KeyOf(s) == k;
    OwnRowExists(headers, rows, s);
    var i := OwnRow(headers, rows, k);
    assert IsStudentRow(headers, rows[i]);
  }

  lemma OnlyOwnRow(sheet: Sheet, own: nat)
    requires GoodKeys(sheet) && own < |sheet.rows| && IsStudentRow(sheet.headers, sheet.rows[own])
    ensures KeyOf(Parse(sheet.headers, sheet.rows[own])) !in Keys(LoadSheet(WithoutRow(sheet, own)))
  {
    var h, rows, k := sheet.headers, sheet.rows, KeyOf(Parse(sheet.headers, sheet.rows[own]));
    var left := rows[..own] + rows[own + 1..];
    forall i | 0 <= i < |left| && IsStudentRow(h, left[i])
      ensures KeyOf(Parse(h, left[i])) != k
    {
      assert left[i] == rows[if i < own then i else i + 1];
    }
    if k in Keys(LoadRows(h, left)) {
      StudentHasRow(h, left, k);
    }
  }

  /** After a successful deletion the student has left the roster exactly when no other source has its key: a
      student of the configuration file is listed with a negative id too, loses its row, and stays. */
  lemma GoneIff(config: seq<Student>, database: seq<Student>, sheet: Sheet, r: Student)
    requires SourcesOk(config, database) && PlainHeaders(sheet.headers) && GoodKeys(sheet)
    requires r in Load(config, database, sheet) && r.id < 0 && DeleteById(config, database, sheet, r.id).Some?
    ensures KeyOf(r) !in Keys(Load(config, database, DeleteById(config, database, sheet, r.id).value))
            <==> KeyOf(r) !in Keys(config + database)
  {
    var after := DeleteById(config, database, sheet, r.id).value;
    RosterKeys(config, database, after);
    if KeyOf(r) !in Keys(config + database) {
      DeletesExactlyOwnRow(config, database, sheet, r);
      OnlyOwnRow(sheet, OwnRow(sheet.headers, sheet.rows, KeyOf(r)));
    }
  }

  lemma TwoLoaded(headers: seq<string>, a: seq<string>, b: seq<string>)
    requires IsStudentRow(headers, a) && IsStudentRow(headers, b)
    ensures LoadSheet(Sheet(headers, [a, b])) == [Parse(headers, a), Parse(headers, b)]
  {
    assert [a, b] == [a] + [b];
    LoadAppend(headers, [a], [b]);
    LoadOne(headers, a);
    LoadOne(headers, b);
  }

  lemma TwoMerged(a: Student, b: Student)
    requires KeyOf(a) != KeyOf(b)
    ensures AddSheet([], [a, b]) == [a, b]
  {
    assert [a, b][..1] == [a] && [a][..0] == [];
    assert AddSheet([], []) == [];
    assert Keys([]) == {};
    assert AddSheet([], [a]) == [a];
    assert Keys([a]) == {KeyOf(a)};
  }

  lemma SecondOfTwo(headers: seq<string>, a: seq<string>, b: seq<string>)
    requires IsStudentRow(headers, a) && IsStudentRow(headers, b)
    requires KeyOf(Parse(headers, a)) != KeyOf(Parse(headers, b))
    ensures Parse(headers, b).(id := -2) in Load([], [], Sheet(headers, [a, b]))
  {
    TwoLoaded(headers, a, b);
    TwoMerged(Parse(headers, a), Parse(headers, b));
    var none: seq<Student> := [];
    assert none + none == none;
    var m := Merged([], [], Sheet(headers, [a, b]));
    assert m[1] == Parse(headers, b).(id := -2);
    SortMembers(m, ByBooking());
  }

  /** Of two rows, the first of which agrees with what is sent for the second, deleting the second takes the first. */
  lemma EarlierTwinGoes(headers: seq<string>, a: seq<string>, b: seq<string>)
    requires PlainHeaders(headers) && IsStudentRow(headers, a) && IsStudentRow(headers, b)
    requires KeyOf(Parse(headers, a)) != KeyOf(Parse(headers, b))
    requires Agrees(Parse(headers, a), SentKey(Parse(headers, b)))
    ensures Parse(headers, b).(id := -2) in Load([], [], Sheet(headers, [a, b]))
    ensures DeleteById([], [], Sheet(headers, [a, b]), -2) == Some(Sheet(headers, [b]))
  {
    var sheet, r := Sheet(headers, [a, b]), Parse(headers, b).(id := -2);
    SecondOfTwo(headers, a, b);
    assert sheet.rows[0] == a && sheet.rows[1] == b;
    SentIsDeleted([], [], sheet, r, 1);
    ParsedIsStripped(headers, b);
    ParsedMatches(headers, a, SentKey(r));
    assert WithoutRow(sheet, 0).rows == [b];
  }

  lemma ParseThree(headers: seq<string>, row: seq<string>)
    requires headers == ["name", "level", "city"] && |row| == 3
    requires Strip(row[0]) == row[0] && Strip(row[1]) == row[1] && Strip(row[2]) == row[2]
    ensures Parse(headers, row) == Student(0, row[0], row[1], row[1], row[2], "")
  {
    assert Fields(headers, row, 0) == map[];
    assert Fields(headers, row, 1) == map["name" := row[0]];
    assert Fields(headers, row, 2) == map["name" := row[0], "level" := row[1]];
    assert Fields(headers, row, 3) == map["name" := row[0], "level" := row[1], "city" := row[2]];
  }

  /** In a sheet with "Ali" above "ali", deleting "ali" takes the row of "Ali". */
  lemma CaseTwinIsDeleted(headers: seq<string>, upper: seq<string>, lower: seq<string>)
    requires headers == ["name", "level", "city"]
    requires upper == ["Ali", "A1", "Rabat"] && lower == ["ali", "A1", "Rabat"]
    ensures Student(-2, "ali", "A1", "A1", "Rabat", "") in Load([], [], Sheet(headers, [upper, lower]))
    ensures DeleteById([], [], Sheet(headers, [upper, lower]), -2) == Some(Sheet(headers, [lower]))
  {
    ParseThree(headers, upper);
    ParseThree(headers, lower);
    assert Strip(upper[0]) != "" && Strip(lower[0]) != "";
    assert upper[0][0] != lower[0][0];
    assert Lower(upper[0]) == Lower(lower[0]);
    EarlierTwinGoes(headers, upper, lower);
  }

  /** With a repeated header the dictionary keeps the last column and the deletion looks in the first: the student
      is listed, but its row is not found. */
  lemma RepeatedHeaderMisses(headers: seq<string>, row: seq<string>)
    requires headers == ["name", "name"] && |row| == 2 && Strip(row[1]) != ""
    requires Lower(Strip(row[0])) != Lower(Strip(row[1]))
    ensures Parse(headers, row).name in set s | s in LoadSheet(Sheet(headers, [row])) :: s.name
    ensures DeleteFromSheet(Sheet(headers, [row]), KeyOf(Parse(headers, row))) == None
  {
    NamedTwice(headers, row);
    LoadOne(headers, row);
    assert Parse(headers, row) in LoadSheet(Sheet(headers, [row]));
    StripTwice(row[1]);
    NoMatchNoDeletion(headers, row, KeyOf(Parse(headers, row)));
  }

  lemma NamedTwice(headers: seq<string>, row: seq<string>)
    requires headers == ["name", "name"] && |row| == 2
    ensures Parse(headers, row).name == Strip(row[1]) && Column(headers, "name") == 0
  {
    assert Fields(headers, row, 0) == map[];
    assert Fields(headers, row, 1) == map["name" := Strip(row[0])];
    assert Fields(headers, row, 2) == map["name" := Strip(row[1])];
  }

  // For which header rows can every listed student be deleted?

  /** The last column of this name among the first `n`, -1 if there is none. */
  function LastColumn(headers: seq<string>, col: string, n: nat): (i: int)
    requires n <= |headers|
    ensures -1 <= i < n && (i >= 0 ==> headers[i] == col)
    ensures forall j :: i < j < n ==> headers[j] != col
  {
    if n == 0 then -1 else if headers[n - 1] == col then n - 1 else LastColumn(headers, col, n - 1)
  }

  /** The row dictionary keeps the last column of a name. */
  lemma {:induction false} FieldIsLast(headers: seq<string>, row: seq<string>, col: string, n: nat)
    requires n <= |row| == |headers|
    ensures var last := LastColumn(headers, col, n);
            Field(Fields(headers, row, n), col) == if last < 0 then "" else Strip(row[last])
  {
    if n == 0 {
    } else {
      FieldIsLast(headers, row, col, n - 1);
    }
  }

  /** Asked to delete the student of row `i`, the sheet finds a row for the key that is sent. */
  ghost predicate Deletable(headers: seq<string>, rows: seq<seq<string>>, i: nat)
    requires i < |rows|
  {
    IsStudentRow(headers, rows[i]) ==>
    DeleteFromSheet(Sheet(headers, rows), SentKey(Parse(headers, rows[i]))).Some?
  }

  ghost predicate AllDeletable(headers: seq<string>) {
    forall rows: seq<seq<string>>, i: nat :: i < |rows| && Padded(headers, rows) ==> Deletable(headers, rows, i)
  }

  /** `x` in one column, `y` in all others. */
  function Marked(n: nat, c: nat, x: string, y: string): seq<string> {
    seq(n, i requires 0 <= i < n => if i == c then x else y)
  }

  ghost predicate Different(x: string, y: string) { Strip(x) == x && Strip(y) == y && y != "" && Lower(x) != Lower(y) }

  lemma MarkedField(headers: seq<string>, c: nat, x: string, y: string, col: string)
    requires c < |headers| && LastColumn(headers, col, |headers|) != c && Different(x, y)
    ensures Field(Fields(headers, Marked(|headers|, c, x, y), |headers|), col) == if col in headers then y else ""
  {
    FieldIsLast(headers, Marked(|headers|, c, x, y), col, |headers|);
  }

  lemma MarkedIsStudent(headers: seq<string>, c: nat, x: string, y: string)
    requires "name" in headers && c < |headers| && Different(x, y)
    requires LastColumn(headers, "name", |headers|) != c
    ensures IsStudentRow(headers, Marked(|headers|, c, x, y))
  {
    var row, last := Marked(|headers|, c, x, y), LastColumn(headers, "name", |headers|);
    MarkedField(headers, c, x, y, "name");
    assert row[last] == y;
  }

  /** The column that is read first does not match what the dictionary kept. */
  lemma MarkedMismatch(headers: seq<string>, c: nat, x: string, y: string, col: string)
    requires c < |headers| && headers[c] == col && Different(x, y)
    requires Column(headers, col) == c && LastColumn(headers, col, |headers|) != c
    ensures var row := Marked(|headers|, c, x, y);
            && Field(Fields(headers, row, |headers|), col) == y
            && Lower(Cell(row, Column(headers, col))) != Lower(Strip(y))
  {
    MarkedField(headers, c, x, y, col);
    assert Marked(|headers|, c, x, y)[c] == x;
  }

  lemma NoMatchNoDeletion(headers: seq<string>, row: seq<string>, k: Key)
    requires !Matches(headers, row, k)
    ensures DeleteFromSheet(Sheet(headers, [row]), k).None?
  {
  }

  lemma MarkedSent(headers: seq<string>, c: nat, x: string, y: string)
    requires c < |headers| && headers[c] == "level" && LastColumn(headers, "level", |headers|) != c && Different(x, y)
    ensures Parse(headers, Marked(|headers|, c, x, y)).sentLevel == y
  {
    MarkedField(headers, c, x, y, "level");
  }

  /** The row that is `x` in the first of two columns of the same name is listed, but not found. */
  lemma MarkedRowIsMissed(headers: seq<string>, c: nat, x: string, y: string, col: string)
    requires "name" in headers && c < |headers| && headers[c] == col && Different(x, y)
    requires col == "name" || col == "level" || col == "city"
    requires Column(headers, col) == c && LastColumn(headers, col, |headers|) != c
    ensures !Deletable(headers, [Marked(|headers|, c, x, y)], 0)
  {
    var row := Marked(|headers|, c, x, y);
    MarkedIsStudent(headers, c, x, y);
    MarkedMismatch(headers, c, x, y, col);
    if col == "level" { MarkedSent(headers, c, x, y); }
    NoMatchNoDeletion(headers, row, SentKey(Parse(headers, row)));
    assert [row][0] == row;
  }

  lemma RepeatedColumn(headers: seq<string>, col: string) returns (c: nat)
    requires !AtMostOnce(headers, col)
    ensures c < |headers| && headers[c] == col && Column(headers, col) == c && LastColumn(headers, col, |headers|) != c
  {
    var i, j :| 0 <= i < j < |headers| && headers[i] == col && headers[j] == col;
    c := Column(headers, col);
  }

  lemma {:induction false} PlainField(headers: seq<string>, n: nat, y: string, col: string)
    requires n <= |headers| && Strip(y) == y
    ensures var d := Fields(headers, seq(|headers|, _ => y), n); col in d ==> d[col] == y
  {
    if n == 0 {
    } else {
      PlainField(headers, n - 1, y, col);
    }
  }

  /** With `exam_level` in place of a level column, a row full of `y` is listed, but not found. */
  lemma ExamLevelIsMissed(headers: seq<string>, x: string, y: string)
    requires "name" in headers && "level" !in headers && "exam_level" in headers && Different(x, y)
    ensures !Deletable(headers, [seq(|headers|, _ => y)], 0)
  {
    var row := seq(|headers|, _ => y);
    FieldsHave(headers, row, |row|, "name");
    FieldsHave(headers, row, |row|, "level");
    FieldsHave(headers, row, |row|, "exam_level");
    PlainField(headers, |row|, y, "name");
    PlainField(headers, |row|, y, "exam_level");
    ParsedIsStripped(headers, row);
    var i :| 0 <= i < |headers| && headers[i] == "name";
    assert Strip(row[i]) != "";
    SentInVain(headers, [row], SentKey(Parse(headers, row)));
    assert [row][0] == row;
  }

  /** Every student a sheet lists can be deleted, whatever its rows, if and only if its header row has no name column,
      or repeats none of the three columns and does not have `exam_level` in place of the level. */
  lemma EveryStudentDeletableIff(headers: seq<string>)
    ensures AllDeletable(headers) <==> "name" !in headers || (PlainHeaders(headers) && LevelIsSent(headers))
  {
    XDiffersFromY();
    if "name" !in headers {
      forall rows: seq<seq<string>>, i: nat | i < |rows|
        ensures Deletable(headers, rows, i)
      {
        NoNameNoStudent(headers, rows[i]);
      }
    } else if !PlainHeaders(headers) {
      var col := if !AtMostOnce(headers, "name") then "name" else if !AtMostOnce(headers, "level") then "level" else "city";
      var c := RepeatedColumn(headers, col);
      MarkedRowIsMissed(headers, c, "x", "y", col);
      NotAllDeletable(headers, Marked(|headers|, c, "x", "y"));
    } else if !LevelIsSent(headers) {
      ExamLevelIsMissed(headers, "x", "y");
      NotAllDeletable(headers, seq(|headers|, _ => "y"));
    } else {
      forall rows: seq<seq<string>>, i: nat | i < |rows| && Padded(headers, rows)
        ensures Deletable(headers, rows, i)
      {
        if IsStudentRow(headers, rows[i]) {
          SentIsOwn(headers, rows[i]);
          StudentRowIsDeleted(Sheet(headers, rows), i);
        }
      }
    }
  }

  lemma NotAllDeletable(headers: seq<string>, row: seq<string>)
    requires |row| == |headers| && !Deletable(headers, [row], 0)
    ensures !AllDeletable(headers)
  {
    assert Padded(headers, [row]);
  }

  lemma XDiffersFromY()
    ensures Different("x", "y")
  {
    assert Lower("x")[0] != Lower("y")[0];
  }

  lemma NoNameNoStudent(headers: seq<string>, row: seq<string>)
    requires "name" !in headers
    ensures !IsStudentRow(headers, row)
  {
    ReadersAgree(headers, row, "name");
  }

  // ---------------------------------------------------------------------------
  // The code itself.
  // ---------------------------------------------------------------------------

  const CACHE_TTL := 15.0

  predicate CacheIsFresh(cached: seq<Student>, cachedAt: real, now: real) {
    cached != [] && now - cachedAt < CACHE_TTL
  }

  /** Where each field of a student comes from. */
  lemma ParsedFields(headers: seq<string>, row: seq<string>)
    requires |row| == |headers|
    ensures var s, n := Parse(headers, row), |headers|;
            var cell := (i: int) => if 0 <= i < |row| then Strip(row[i]) else "";
            && s.name == cell(LastColumn(headers, "name", n)) && s.level == cell(LastColumn(headers, "level", n))
            && s.city == cell(LastColumn(headers, "city", n))
            && s.booking == cell(LastColumn(headers, "booking_datetime", n))
            && s.sentLevel == cell(LastColumn(headers, if "level" in headers then "level" else "exam_level", n))
  {
    FieldIsLast(headers, row, "name", |row|);
    FieldIsLast(headers, row, "level", |row|);
    FieldIsLast(headers, row, "exam_level", |row|);
    FieldIsLast(headers, row, "city", |row|);
    FieldIsLast(headers, row, "booking_datetime", |row|);
    FieldsHave(headers, row, |row|, "level");
  }

  /** Stripping takes white space off both ends and nothing else. */
  lemma StripTakesSpaces(s: string)
    ensures exists a, b :: s == a + Strip(s) + b && AllSpace(a) && AllSpace(b)
    ensures var r := Strip(s); r != "" ==> !AllSpace([r[0]]) && !AllSpace([r[|r| - 1]])
  {
    var a := LeftSpaces(s);
    var l := StripLeft(s);
    var b := RightSpaces(l);
    assert s == a + Strip(s) + b;
    var r := Strip(s);
    if r != "" {
      assert r == l[..|r|] && r[0] == l[0];
      assert !IsSpace([r[0]][0]) && !IsSpace([r[|r| - 1]][0]);
    }
  }

  predicate AllSpace(s: string) { forall i :: 0 <= i < |s| ==> s[i] in {' ', '\t', '\n', '\r'} }

  lemma {:induction false} LeftSpaces(s: string) returns (a: string)
    ensures s == a + StripLeft(s) && AllSpace(a)
  {
    if s == [] || !IsSpace(s[0]) {
      a := [];
    } else {
      a := LeftSpaces(s[1..]);
      a := [s[0]] + a;
    }
  }

  lemma {:induction false} RightSpaces(s: string) returns (b: string)
    ensures s == StripRight(s) + b && AllSpace(b)
  {
    if s == [] || !IsSpace(s[|s| - 1]) {
      b := [];
    } else {
      b := RightSpaces(s[..|s| - 1]);
      b := b + [s[|s| - 1]];
    }
  }

  /** What a read at `now` is answered with. */
  function Served(sheet: Sheet, cached: seq<Student>, cachedAt: real, now: real): seq<Student> {
    if CacheIsFresh(cached, cachedAt, now) then cached else LoadSheet(sheet)
  }

  function RosterOf(config: seq<Student>, database: seq<Student>, sheetStudents: seq<Student>): seq<Student> {
    Sort(WithIds(AddSheet(config + database, sheetStudents)), ByBooking())
  }

  method HasText(row: seq<string>) returns (some: bool)
    ensures some <==> !IsBlank(row)
  {
    for i := 0 to |row|
      invariant forall j :: 0 <= j < i ==> Strip(row[j]) == ""
    {
      if Strip(row[i]) != "" {
        return true;
      }
    }
    return false;
  }

  method ReadFields(headers: seq<string>, row: seq<string>) returns (d: map<string, string>)
    ensures d == Fields(headers, row, |row|)
  {
    d := map[];
    for i := 0 to |row|
      invariant d == Fields(headers, row, i)
    {
      if i < |headers| {
        d := d[headers[i] := Strip(row[i])];
      }
    }
  }

  /** Row `i` is the first whose name is the wanted one up to case, and whose level and city are too, where the key
      names them. */
  ghost predicate IsFirstHit(sheet: Sheet, k: Key, i: nat) {
    var cell := (j: nat, col: string) requires j < |sheet.rows| => Lower(Cell(sheet.rows[j], Column(sheet.headers, col)));
    var name, level, city := Lower(Strip(k.name)), Lower(Strip(k.level)), Lower(Strip(k.city));
    && i < |sheet.rows|
    && cell(i, "name") == name
    && (k.level == "" || cell(i, "level") == level)
    && (k.city == "" || cell(i, "city") == city)
    && forall j :: 0 <= j < i ==>
         || cell(j, "name") != name
         || (k.level != "" && cell(j, "level") != level)
         || (k.city != "" && cell(j, "city") != city)
  }

  /** The worksheet and the cache in front of it; an empty cache counts as no cache. */
  class GoogleSheet {
    var sheet: Sheet
    var cached: seq<Student>
    var cachedAt: real

    constructor (sheet: Sheet)
      ensures this.sheet == sheet && cached == [] && cachedAt == 0.0
    {
      this.sheet, cached, cachedAt := sheet, [], 0.0;
    }

    method LoadSheetData(now: real) returns (students: seq<Student>)
      modifies this
      ensures sheet == old(sheet)
      ensures old(cached != [] && now - cachedAt < 15.0) ==>
                students == old(cached) && cached == old(cached) && cachedAt == old(cachedAt)
      ensures old(cached == [] || now - cachedAt >= 15.0) ==> students == LoadSheet(sheet)
      ensures old(cached == [] || now - cachedAt >= 15.0) && sheet.rows != [] ==> cached == students && cachedAt == now
      ensures sheet.rows == [] ==> cached == old(cached) && cachedAt == old(cachedAt)
    {
      if CacheIsFresh(cached, cachedAt, now) {
        return cached;
      }
      if sheet.rows == [] {
        return [];
      }
      var h, rows := sheet.headers, sheet.rows;
      students := [];
      for n := 0 to |rows|
        invariant sheet == old(sheet) && cached == old(cached) && cachedAt == old(cachedAt)
        invariant students == LoadRows(h, rows[..n])
      {
        ghost var upto := rows[..n + 1];
        assert upto[..n] == rows[..n];
        var some := HasText(rows[n]);
        if some {
          var d := ReadFields(h, rows[n]);
          if Field(d, "name") != "" {
            var sent := if "level" in d then d["level"] else Field(d, "exam_level");
            students := students +
                        [Student(0, d["name"], Field(d, "level"), sent, Field(d, "city"), Field(d, "booking_datetime"))];
          }
        }
      }
      assert rows[..|rows|] == rows;
      cached, cachedAt := students, now;
    }

    method DeleteStudent(k: Key) returns (ok: bool)
      modifies this
      ensures ok <==> DeleteFromSheet(old(sheet), k).Some?
      ensures ok ==> DeleteFromSheet(old(sheet), k) == Some(sheet) && cached == [] && cachedAt == 0.0
      ensures !ok ==> sheet == old(sheet) && cached == old(cached) && cachedAt == old(cachedAt)
      ensures ok ==> exists i: nat :: IsFirstHit(old(sheet), k, i) && sheet.headers == old(sheet.headers)
                                 && sheet.rows == old(sheet.rows)[..i] + old(sheet.rows)[i + 1..]
      ensures !ok ==> Strip(k.name) == "" || "name" !in sheet.headers || forall i: nat :: !IsFirstHit(sheet, k, i)
    {
      if Strip(k.name) == "" || sheet.rows == [] {
        return false;
      }
      var h, rows := sheet.headers, sheet.rows;
      var ni, li, ci := Column(h, "name"), Column(h, "level"), Column(h, "city");
      if ni < 0 {
        return false;
      }
      var n := 0;
      while n < |rows|
        invariant 0 <= n <= |rows|
        invariant forall j :: 0 <= j < n ==> !Matches(h, rows[j], k)
        invariant sheet == old(sheet) && cached == old(cached) && cachedAt == old(cachedAt)
      {
        if Lower(Cell(rows[n], ni)) != Lower(Strip(k.name)) {
          n := n + 1;
          continue;
        }
        if k.level != "" && Lower(Cell(rows[n], li)) != Lower(Strip(k.level)) {
          n := n + 1;
          continue;
        }
        if k.city != "" && Lower(Cell(rows[n], ci)) != Lower(Strip(k.city)) {
          n := n + 1;
          continue;
        }
        break;
      }
      if n == |rows| {
        return false;
      }
      sheet := sheet.(rows := rows[..n] + rows[n + 1..]);
      cached, cachedAt := [], 0.0;
      return true;
    }
  }

  method AssignIds(a: array<Student>)
    modifies a
    ensures a[..] == WithIds(old(a[..]))
    ensures forall i :: 0 <= i < a.Length ==> a[i] == if old(a[i]).id == 0 then old(a[i]).(id := -(i + 1)) else old(a[i])
  {
    for i := 0 to a.Length
      invariant forall j :: 0 <= j < i ==> a[j] == WithIds(old(a[..]))[j]
      invariant forall j :: i <= j < a.Length ==> a[j] == old(a[j])
    {
      if a[i].id == 0 {
        a[i] := a[i].(id := -(i + 1));
      }
    }
  }

  method GetLoadedStudents(config: seq<Student>, database: seq<Student>, store: GoogleSheet, now: real)
    returns (roster: seq<Student>)
    modifies store
    ensures store.sheet == old(store.sheet)
    ensures roster == RosterOf(config, database, old(Served(store.sheet, store.cached, store.cachedAt, now)))
  {
    var students := config + database;
    var sheetStudents := store.LoadSheetData(now);
    var seen := Keys(students);
    for n := 0 to |sheetStudents|
      invariant store.sheet == old(store.sheet)
      invariant students == AddSheet(config + database, sheetStudents[..n])
      invariant seen == Keys(students)
    {
      var s := sheetStudents[n];
      ghost var upto := sheetStudents[..n + 1];
      assert upto[..n] == sheetStudents[..n];
      if KeyOf(s) !in seen {
        KeysAppend(students, s);
        students := students + [s];
        seen := seen + {KeyOf(s)};
      }
    }
    assert sheetStudents[..|sheetStudents|] == sheetStudents;
    var list := new Student[|students|](i requires 0 <= i < |students| => students[i]);
    assert list[..] == students;
    AssignIds(list);
    roster := Sort(list[..], ByBooking());
  }

  /** The negative branch of `api_delete_student`: the id is resolved in the roster as served, the row is looked up
      in the sheet as it is. */
  method ApiDeleteStudent(config: seq<Student>, database: seq<Student>, store: GoogleSheet, id: int, now: real)
    returns (ok: bool)
    requires id < 0
    modifies store
    ensures var shown := RosterOf(config, database, old(Served(store.sheet, store.cached, store.cachedAt, now)));
            var found := FindById(shown, id);
            var r := if found.None? then None else DeleteFromSheet(old(store.sheet), SentKey(found.value));
            (ok <==> r.Some?) && store.sheet == if r.Some? then r.value else old(store.sheet)
    ensures !old(CacheIsFresh(store.cached, store.cachedAt, now)) ==>
              var r := DeleteById(config, database, old(store.sheet), id);
              (ok <==> r.Some?) && store.sheet == if r.Some? then r.value else old(store.sheet)
    ensures ok ==> store.cached == [] && store.cachedAt == 0.0
  {
    var roster := GetLoadedStudents(config, database, store, now);
    var found := FindById(roster, id);
    if found.None? {
      return false;
    }
    ok := store.DeleteStudent(SentKey(found.value));
  }
}
