/** The two implementations of the storage functions: `db.py` on SQLite and `database.py` on SQLAlchemy, which the
    callers use interchangeably. */
module Backends {
  import opened Common

  datatype Row = Row(id: int, name: string, level: string, city: string, status: string, result: Option<string>)

  /** A result dictionary: its JSON text, and whether it has no entries (an empty one is false in Python). */
  datatype Dict = Dict(empty: bool, json: string)

  // ---------------------------------------------------------------------------
  // Student keys.
  // ---------------------------------------------------------------------------

  function KeyText(r: Row): string { r.name + "|" + r.level + "|" + r.city }

  function Bars(s: string): (n: nat) { if s == [] then 0 else (if s[0] == '|' then 1 else 0) + Bars(s[1..]) }

  /** `key.split("|")`. */
  function Split(s: string): (parts: seq<string>)
    ensures |parts| == Bars(s) + 1
    ensures forall i :: 0 <= i < |parts| ==> Bars(parts[i]) == 0
  {
    if s == [] then [[]]
    else
      var rest := Split(s[1..]);
      if s[0] == '|' then [[]] + rest else [[s[0]] + rest[0]] + rest[1..]
  }

  predicate AllDigits(s: string) { s != "" && forall i :: 0 <= i < |s| ==> '0' <= s[i] <= '9' }

  function Digit(c: char): nat
    requires '0' <= c <= '9'
  {
    c as int - '0' as int
  }

  function Number(s: string): nat
    requires forall i :: 0 <= i < |s| ==> '0' <= s[i] <= '9'
  {
    if s == [] then 0 else 10 * Number(s[..|s| - 1]) + Digit(s[|s| - 1])
  }

  predicate SqliteMatches(r: Row, key: string) { KeyText(r) == key }

  predicate OrmMatches(r: Row, key: string) {
    var parts := Split(key);
    if |parts| == 3 then r.name == parts[0] && r.level == parts[1] && r.city == parts[2]
    else AllDigits(key) && r.id == Number(key)
  }

  lemma {:induction false} BarsAppend(a: string, b: string)
    ensures Bars(a + b) == Bars(a) + Bars(b)
  {
    if a == [] {
      assert a + b == b;
    } else {
      BarsAppend(a[1..], b);
      assert (a + b)[1..] == a[1..] + b;
    }
  }

  lemma {:induction false} DigitsHaveNoBar(s: string)
    requires forall i :: 0 <= i < |s| ==> '0' <= s[i] <= '9'
    ensures Bars(s) == 0
  {
    if s == [] {
    } else {
      DigitsHaveNoBar(s[1..]);
    }
  }

  lemma {:induction false} SplitFirst(a: string, rest: string)
    requires Bars(a) == 0
    ensures Split(a + "|" + rest) == [a] + Split(rest)
  {
    var s := a + "|" + rest;
    if a == [] {
      assert s[1..] == rest;
    } else {
      SplitFirst(a[1..], rest);
      assert s[1..] == a[1..] + "|" + rest;
      assert a == [a[0]] + a[1..];
    }
  }

  lemma {:induction false} SplitNone(a: string)
    requires Bars(a) == 0
    ensures Split(a) == [a]
  {
    if a == [] {
    } else {
      SplitNone(a[1..]);
      assert a == [a[0]] + a[1..];
    }
  }

  /** Splitting undoes joining when no part holds a bar. */
  lemma SplitOfJoin(r: Row)
    requires Bars(r.name) == 0 && Bars(r.level) == 0 && Bars(r.city) == 0
    ensures Split(KeyText(r)) == [r.name, r.level, r.city]
  {
    var rest := r.level + "|" + r.city;
    assert KeyText(r) == r.name + "|" + rest;
    SplitFirst(r.name, rest);
    SplitFirst(r.level, r.city);
    SplitNone(r.city);
  }

  function Join(parts: seq<string>): string
    requires parts != []
  {
    if |parts| == 1 then parts[0] else parts[0] + "|" + Join(parts[1..])
  }

  lemma JoinBar(rest: seq<string>)
    requires rest != []
    ensures Join([[]] + rest) == "|" + Join(rest)
  {
  }

  lemma JoinChar(c: char, rest: seq<string>)
    requires rest != []
    ensures Join([[c] + rest[0]] + rest[1..]) == [c] + Join(rest)
  {
  }

  /** Joining always undoes splitting. */
  lemma {:induction false} JoinOfSplit(s: string)
    ensures Join(Split(s)) == s
  {
    if s == [] {
    } else {
      var rest := Split(s[1..]);
      JoinOfSplit(s[1..]);
      if s[0] == '|' {
        JoinBar(rest);
      } else {
        JoinChar(s[0], rest);
      }
    }
  }

  lemma KeyBars(r: Row)
    ensures Bars(KeyText(r)) == Bars(r.name) + Bars(r.level) + Bars(r.city) + 2
  {
    BarsAppend(r.name + "|" + r.level + "|", r.city);
    BarsAppend(r.name + "|" + r.level, "|");
    BarsAppend(r.name + "|", r.level);
    BarsAppend(r.name, "|");
    assert Bars("|") == 1;
  }

  predicate HasBar(r: Row) { Bars(r.name) + Bars(r.level) + Bars(r.city) > 0 }

  lemma OrmThreeParts(r: Row, key: string)
    requires |Split(key)| == 3 && OrmMatches(r, key)
    ensures KeyText(r) == key
  {
    var p := Split(key);
    JoinOfSplit(key);
    assert p[1..] == [p[1], p[2]] && [p[1], p[2]][1..] == [p[2]];
    assert Join([p[1], p[2]]) == p[1] + "|" + Join([p[2]]);
    assert Join(p) == p[0] + "|" + (p[1] + "|" + p[2]);
    assert p[0] + "|" + (p[1] + "|" + p[2]) == p[0] + "|" + p[1] + "|" + p[2];
  }

  /** For a key that is not a number the back ends differ on a row exactly when the row is named by the key and one
      of its fields holds a bar: then only SQLite finds it. */
  lemma SameRowsIff(r: Row, key: string)
    requires !AllDigits(key)
    ensures (SqliteMatches(r, key) <==> OrmMatches(r, key)) <==> !(KeyText(r) == key && HasBar(r))
    ensures OrmMatches(r, key) ==> SqliteMatches(r, key)
  {
    KeyBars(r);
    if OrmMatches(r, key) {
      OrmThreeParts(r, key);
    }
    if KeyText(r) == key && !HasBar(r) {
      SplitOfJoin(r);
    }
  }

  /** No stored bar, same rows for every key that is not a number; and only then. */
  lemma SameTableIff(rows: seq<Row>)
    ensures (forall key, i :: 0 <= i < |rows| && !AllDigits(key) ==>
               (SqliteMatches(rows[i], key) <==> OrmMatches(rows[i], key)))
            <==> (forall i :: 0 <= i < |rows| ==> !HasBar(rows[i]))
  {
    forall key, i | 0 <= i < |rows| && !AllDigits(key)
      ensures (SqliteMatches(rows[i], key) <==> OrmMatches(rows[i], key)) <==> !(KeyText(rows[i]) == key && HasBar(rows[i]))
    {
      SameRowsIff(rows[i], key);
    }
    forall i | 0 <= i < |rows|
      ensures !AllDigits(KeyText(rows[i]))
    {
      NotANumber(rows[i]);
    }
  }

  lemma NotANumber(r: Row)
    ensures !AllDigits(KeyText(r))
  {
    KeyBars(r);
    if AllDigits(KeyText(r)) {
      DigitsHaveNoBar(KeyText(r));
    }
  }

  /** A number touches no row on SQLite, and the row with that id on SQLAlchemy. */
  lemma NumbersDiffer(r: Row, key: string)
    requires AllDigits(key)
    ensures !SqliteMatches(r, key)
    ensures OrmMatches(r, key) <==> r.id == Number(key)
  {
    NotANumber(r);
    DigitsHaveNoBar(key);
  }

  // ---------------------------------------------------------------------------
  // Updating a status.
  // ---------------------------------------------------------------------------

  function SqliteRow(r: Row, key: string, status: string, result: Option<Dict>): Row {
    if !SqliteMatches(r, key) then r
    else r.(status := status, result := if result.Some? && !result.value.empty then Some(result.value.json) else None)
  }

  function OrmRow(r: Row, key: string, status: string, result: Option<Dict>): Row {
    if !OrmMatches(r, key) then r
    else r.(status := status, result := if result.Some? then Some(result.value.json) else r.result)
  }

  /** On a row both touch, the outcomes are the same exactly when a non-empty result is given, or none is given and
      none is stored. */
  lemma SameOutcomeIff(r: Row, key: string, status: string, result: Option<Dict>)
    requires SqliteMatches(r, key) && OrmMatches(r, key)
    ensures SqliteRow(r, key, status, result) == OrmRow(r, key, status, result)
            <==> if result.Some? then !result.value.empty else r.result.None?
  {
  }

  /** Without stored bars, and for a key that is not a number, one update leaves two equal tables equal exactly when
      the rows of that key are given a non-empty result, or none while they have none. */
  lemma TablesStayEqualIff(rows: seq<Row>, key: string, status: string, result: Option<Dict>)
    requires !AllDigits(key) && forall i :: 0 <= i < |rows| ==> !HasBar(rows[i])
    ensures (forall i :: 0 <= i < |rows| ==> SqliteRow(rows[i], key, status, result) == OrmRow(rows[i], key, status, result))
            <==> (forall i :: 0 <= i < |rows| && KeyText(rows[i]) == key ==>
                    if result.Some? then !result.value.empty else rows[i].result.None?)
  {
    forall i | 0 <= i < |rows|
      ensures SqliteRow(rows[i], key, status, result) == OrmRow(rows[i], key, status, result)
              <==> (KeyText(rows[i]) == key ==> if result.Some? then !result.value.empty else rows[i].result.None?)
    {
      SameRowsIff(rows[i], key);
    }
  }

  class StudentTable {
    var rows: seq<Row>

    /** `db.update_student_status`: one UPDATE statement.  The rows whose joined fields are the key get the status
        and the result, NULL for a missing or empty one; no other row changes. */
    method SqliteUpdate(key: string, status: string, result: Option<Dict>)
      modifies this
      ensures |rows| == old(|rows|)
      ensures forall i :: 0 <= i < |rows| && old(rows[i]).name + "|" + old(rows[i]).level + "|" + old(rows[i]).city != key ==>
                rows[i] == old(rows[i])
      ensures forall i :: 0 <= i < |rows| && old(rows[i]).name + "|" + old(rows[i]).level + "|" + old(rows[i]).city == key ==>
                && rows[i].status == status
                && (rows[i].result.Some? <==> result.Some? && !result.value.empty)
                && (rows[i].result.Some? ==> rows[i].result == Some(result.value.json))
                && rows[i].(status := old(rows[i]).status, result := old(rows[i]).result) == old(rows[i])
    {
      var before := rows;
      rows := seq(|before|, i requires 0 <= i < |before| => SqliteRow(before[i], key, status, result));
    }

    /** `database.update_student_status`: the key is taken apart, and the rows found are updated one at a time. */
    method OrmUpdate(key: string, status: string, result: Option<Dict>)
      modifies this
      ensures |rows| == old(|rows|)
      ensures forall i :: 0 <= i < |rows| ==> rows[i] == OrmRow(old(rows[i]), key, status, result)
      ensures forall i :: 0 <= i < |rows| && !OrmMatches(old(rows[i]), key) ==> rows[i] == old(rows[i])
      ensures forall i :: 0 <= i < |rows| && OrmMatches(old(rows[i]), key) ==>
                && rows[i].status == status
                && rows[i].result == (if result.Some? then Some(result.value.json) else old(rows[i]).result)
                && rows[i].(status := old(rows[i]).status, result := old(rows[i]).result) == old(rows[i])
    {
      var parts := Split(key);
      if |parts| != 3 && !AllDigits(key) {
        return;
      }
      for i := 0 to |rows|
        invariant |rows| == old(|rows|)
        invariant forall j :: 0 <= j < i ==> rows[j] == OrmRow(old(rows[j]), key, status, result)
        invariant forall j :: i <= j < |rows| ==> rows[j] == old(rows[j])
      {
        var found := if |parts| == 3 then rows[i].name == parts[0] && rows[i].level == parts[1] && rows[i].city == parts[2]
                     else rows[i].id == Number(key);
        if found {
          var student := rows[i].(status := status);
          if result.Some? {
            student := student.(result := Some(result.value.json));
          }
          rows := rows[i := student];
        }
      }
    }
  }

  // ---------------------------------------------------------------------------
  // Numbers as text.
  // ---------------------------------------------------------------------------

  function DigitChar(d: nat): char
    requires d < 10
  {
    ('0' as int + d) as char
  }

  function NatText(n: nat): (s: string)
    ensures AllDigits(s)
  {
    if n < 10 then [DigitChar(n)] else NatText(n / 10) + [DigitChar(n % 10)]
  }

  /** `str(n)`. */
  function Str(n: int): string { if n < 0 then "-" + NatText(-n) else NatText(n) }

  /** `int(raw)` on plain decimal text; `None` is its `ValueError`. */
  function Int(raw: string): Option<int> {
    var negative := |raw| > 1 && raw[0] == '-';
    var digits := if negative then raw[1..] else raw;
    if !AllDigits(digits) then None
    else
      var n: int := Number(digits);
      Some(if negative then -n else n)
  }

  lemma {:induction false} NumberOfText(n: nat)
    ensures Number(NatText(n)) == n
  {
    if n >= 10 {
      NumberOfText(n / 10);
      var s := NatText(n);
      assert s[..|s| - 1] == NatText(n / 10);
    } else {
      assert NatText(n)[..0] == [];
    }
  }

  lemma IntOfStr(n: int)
    ensures Int(Str(n)) == Some(n)
  {
    if n < 0 {
      NumberOfText(-n);
      assert Str(n)[1..] == NatText(-n);
    } else {
      NumberOfText(n);
    }
  }

  // ---------------------------------------------------------------------------
  // LIKE.
  // ---------------------------------------------------------------------------

  /** SQLite compares letters of the ASCII alphabet without case; PostgreSQL does not. */
  predicate SameChar(a: char, b: char, fold: bool) { if fold then LowerChar(a) == LowerChar(b) else a == b }

  predicate Like(s: string, pattern: string, fold: bool)
    decreases |s| + |pattern|
  {
    if pattern == [] then s == []
    else if pattern[0] == '%' then Like(s, pattern[1..], fold) || (s != [] && Like(s[1..], pattern, fold))
    else s != [] && (pattern[0] == '_' || SameChar(s[0], pattern[0], fold)) && Like(s[1..], pattern[1..], fold)
  }

  lemma {:induction false} PercentMatchesAll(s: string, fold: bool)
    ensures Like(s, "%", fold)
  {
    assert "%"[1..] == "";
    if s != [] {
      PercentMatchesAll(s[1..], fold);
    }
  }

  predicate Plain(p: string) { forall i :: 0 <= i < |p| ==> p[i] != '%' && p[i] != '_' }

  predicate StartsLike(s: string, p: string, fold: bool) {
    |s| >= |p| && forall i :: 0 <= i < |p| ==> SameChar(s[i], p[i], fold)
  }

  /** The underscore is a wildcard: the pattern asks for one more character, whatever it is. */
  lemma {:induction false} LikePrefix(s: string, p: string, fold: bool)
    requires Plain(p)
    ensures Like(s, p + "_%", fold) <==> |s| > |p| && StartsLike(s, p, fold)
  {
    if p == [] {
      assert p + "_%" == "_%";
      assert "_%"[1..] == "%";
      if s != [] {
        PercentMatchesAll(s[1..], fold);
      }
    } else if s != [] {
      assert (p + "_%")[1..] == p[1..] + "_%";
      LikePrefix(s[1..], p[1..], fold);
      StartsStep(s, p, fold);
    }
  }

  lemma StartsStep(s: string, p: string, fold: bool)
    requires s != [] && p != []
    ensures StartsLike(s, p, fold) <==> SameChar(s[0], p[0], fold) && StartsLike(s[1..], p[1..], fold)
  {
  }

  // ---------------------------------------------------------------------------
  // Checkpoints in the state table.
  // ---------------------------------------------------------------------------

  const PREFIX := "checkpoint_"
  const WORD := "checkpoint"
  const CLEAR_PATTERN := "checkpoint_%"

  function CheckpointKey(student: string): string { PREFIX + student }

  function StoredStep(state: map<string, string>, student: string): int {
    var raw := if CheckpointKey(student) in state then state[CheckpointKey(student)] else "0";
    var n := Int(raw);
    if n.Some? then n.value else 0
  }

  function ClearAll(state: map<string, string>, fold: bool): map<string, string> {
    map k | k in state && !Like(k, CLEAR_PATTERN, fold) :: state[k]
  }

  lemma CheckpointKeysDiffer(a: string, b: string)
    requires a != b
    ensures CheckpointKey(a) != CheckpointKey(b)
  {
    assert CheckpointKey(a)[|PREFIX|..] == a && CheckpointKey(b)[|PREFIX|..] == b;
  }

  /** A read returns the number saved last under that student key, and the other students keep theirs. */
  lemma ReadsLastSaved(state: map<string, string>, student: string, step: int, other: string)
    ensures var saved := state[CheckpointKey(student) := Str(step)];
            StoredStep(saved, other) == if other == student then step else StoredStep(state, other)
  {
    IntOfStr(step);
    if other != student {
      CheckpointKeysDiffer(other, student);
    }
  }

  lemma ReadsZeroAfterClear(state: map<string, string>, student: string, other: string)
    ensures StoredStep(state - {CheckpointKey(student)}, other)
            == if other == student then 0 else StoredStep(state, other)
  {
    IntOfStr(0);
    assert Str(0) == "0";
    if other != student {
      CheckpointKeysDiffer(other, student);
    }
  }

  /** What clearing everything removes: every key that goes on after the word "checkpoint", on SQLite in any case. */
  lemma ClearedIff(state: map<string, string>, fold: bool, k: string)
    ensures k in ClearAll(state, fold) <==> k in state && !(|k| > |WORD| && StartsLike(k, WORD, fold))
    ensures k in ClearAll(state, fold) ==> ClearAll(state, fold)[k] == state[k]
  {
    assert WORD + "_%" == CLEAR_PATTERN;
    LikePrefix(k, WORD, fold);
  }

  /** Afterwards no student has a checkpoint, and keys that do not start with "checkpoint" are intact. */
  lemma ClearAllIsComplete(state: map<string, string>, fold: bool, student: string)
    ensures CheckpointKey(student) !in ClearAll(state, fold)
    ensures StoredStep(ClearAll(state, fold), student) == 0
  {
    ClearedIff(state, fold, CheckpointKey(student));
    IntOfStr(0);
    assert Str(0) == "0";
  }

  lemma ClearAllIsLocal(state: map<string, string>, fold: bool, k: string)
    requires k in state && !StartsLike(k, WORD, fold)
    ensures k in ClearAll(state, fold) && ClearAll(state, fold)[k] == state[k]
  {
    ClearedIff(state, fold, k);
  }

  /** A key that is no checkpoint can be lost: the underscore of the pattern matches any character ... */
  lemma WildcardTakesMore(state: map<string, string>, k: string, fold: bool)
    requires k == "checkpoints"
    ensures k !in ClearAll(state, fold) && !(PREFIX <= k)
  {
    ClearedIff(state, fold, k);
    assert k[|WORD|] != PREFIX[|WORD|];
  }

  /** ... and SQLite does not look at the case either, where PostgreSQL does. */
  lemma CaseTakesMore(state: map<string, string>, k: string)
    requires k == "Checkpoints" && k in state
    ensures k !in ClearAll(state, true)
    ensures k in ClearAll(state, false)
  {
    ClearedIff(state, true, k);
    ClearedIff(state, false, k);
    assert !SameChar(k[0], WORD[0], false);
  }

  class StateStore {
    var state: map<string, string>
    const fold: bool

    constructor (fold: bool)
      ensures state == map[] && this.fold == fold
    {
      state, this.fold := map[], fold;
    }

    method SetState(key: string, value: string)
      modifies this
      ensures state == old(state)[key := value]
    {
      state := state[key := value];
    }

    method GetState(key: string, default: string) returns (value: string)
      ensures value == if key in state then state[key] else default
    {
      value := if key in state then state[key] else default;
    }

    method DeleteState(key: string)
      modifies this
      ensures state == old(state) - {key}
    {
      state := state - {key};
    }

    method SaveCheckpoint(student: string, step: int)
      modifies this
      ensures state == old(state)["checkpoint_" + student := Str(step)]
      ensures StoredStep(state, student) == step
    {
      SetState(CheckpointKey(student), Str(step));
      ReadsLastSaved(old(state), student, step, student);
    }

    method GetCheckpoint(student: string) returns (step: int)
      ensures step == StoredStep(state, student)
      ensures "checkpoint_" + student !in state ==> step == 0
      ensures forall n: int :: CheckpointKey(student) in state && state[CheckpointKey(student)] == Str(n) ==> step == n
    {
      forall n: int
        ensures Int(Str(n)) == Some(n)
      {
        IntOfStr(n);
      }
      assert Str(0) == "0";
      var raw := GetState(CheckpointKey(student), "0");
      var n := Int(raw);
      step := if n.Some? then n.value else 0;
    }

    method ClearCheckpoint(student: string)
      modifies this
      ensures state == old(state) - {"checkpoint_" + student}
      ensures StoredStep(state, student) == 0
    {
      DeleteState(CheckpointKey(student));
      ReadsZeroAfterClear(old(state), student, student);
    }

    method ClearAllCheckpoints()
      modifies this
      ensures forall k :: k in state <==> k in old(state) && !(|k| > 10 && StartsLike(k, "checkpoint", fold))
      ensures forall k :: k in state ==> state[k] == old(state)[k]
      ensures forall student :: StoredStep(state, student) == 0
    {
      ghost var before := state;
      state := ClearAll(state, fold);
      forall k
        ensures k in state <==> k in before && !(|k| > |WORD| && StartsLike(k, WORD, fold))
        ensures k in state ==> state[k] == before[k]
      {
        ClearedIff(before, fold, k);
      }
      forall student
        ensures StoredStep(state, student) == 0
      {
        ClearAllIsComplete(before, fold, student);
      }
    }
  }
}
