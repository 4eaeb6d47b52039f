/** dataset/clean_input.py: reads the inventory document, and for every file
    tagged "kaggle csv" groups the flat CSV rows into one patient entry per
    `baby_id` (static attributes from the first row of that id, one verbatim
    record per row) and writes the grouping as JSON under `output/`. */
module CleanInput {
  import opened Wrappers
  import opened Values
  import opened Seqs
  import opened Strings

  const InputDir: string := "input"
  const OutputDir: string := "output"
  const KaggleCsv: string := "kaggle csv"

  /** One row of `csv.DictReader`: column name to the cell's text. */
  type Row = map<string, string>

  /** One cell of a daily record, copied from the row as text. */
  datatype Field = Field(column: string, text: string)

  /** One daily record, a dict whose keys are `RecordColumns` in that order. */
  type Record = seq<Field>

  const StaticColumns: seq<string> :=
    ["name", "gender", "gestational_age_weeks",
     "birth_weight_kg", "birth_length_cm", "birth_head_circumference_cm"]

  const RecordColumns: seq<string> :=
    ["date", "age_days", "weight_kg", "length_cm", "head_circumference_cm",
     "temperature_c", "heart_rate_bpm", "respiratory_rate_bpm", "oxygen_saturation",
     "feeding_type", "feeding_frequency_per_day", "urine_output_count", "stool_count",
     "jaundice_level_mg_dl", "apgar_score", "immunizations_done", "reflexes_normal",
     "risk_level"]

  datatype Birth = Birth(weightKg: string, lengthCm: string, headCircumferenceCm: string)

  datatype Statics = Statics(name: string, gender: string, gestationalAgeWeeks: string, birth: Birth)

  datatype Patient = Patient(babyId: string, statics: Statics, records: seq<Record>)

  /** The `patients` dict: its values, and its keys in insertion order. */
  datatype Structured = Structured(order: seq<string>, patients: map<string, Patient>)

  predicate HasColumns(row: Row, cols: seq<string>) {
    forall c :: c in cols ==> c in row
  }

  /** The first column of `cols` that `row` lacks: the key of the KeyError
      that `row[c]` raises when the columns are read in that order. */
  function FirstMissing(row: Row, cols: seq<string>): (r: Option<string>)
    ensures r.None? <==> HasColumns(row, cols)
    ensures r.Some? ==> r.value in cols && r.value !in row
    ensures r.Some? ==> exists i :: 0 <= i < |cols| && cols[i] == r.value && forall j :: 0 <= j < i ==> cols[j] in row
  {
    if cols == [] then None
    else if cols[0] !in row then Some(cols[0])
    else
      var r := FirstMissing(row, cols[1..]);
      assert forall c :: c in cols ==> c == cols[0] || c in cols[1..];
      assert r.Some? ==> exists i :: 1 <= i < |cols| && cols[i] == r.value && forall j :: 0 <= j < i ==> cols[j] in row by {
        if r.Some? {
          var i :| 0 <= i < |cols[1..]| && cols[1..][i] == r.value && forall j :: 0 <= j < i ==> cols[1..][j] in row;
          assert cols[i + 1] == r.value;
          assert forall j :: 1 <= j < i + 1 ==> cols[j] == cols[1..][j - 1];
        }
      }
      r
  }

  /** The text of cell `c`; read only after `FirstMissing` found every column. */
  function Cell(row: Row, c: string): string {
    if c in row then row[c] else ""
  }

  function StaticsOf(row: Row): Statics {
    Statics(Cell(row, "name"), Cell(row, "gender"), Cell(row, "gestational_age_weeks"),
            Birth(Cell(row, "birth_weight_kg"), Cell(row, "birth_length_cm"),
                  Cell(row, "birth_head_circumference_cm")))
  }

  /** The record built from a row: every column of `cols`, copied verbatim, in column order. */
  function Fields(row: Row, cols: seq<string>): (r: Record) {
    if cols == [] then [] else [Field(cols[0], Cell(row, cols[0]))] + Fields(row, cols[1..])
  }

  function RecordOf(row: Row): Record {
    Fields(row, RecordColumns)
  }

  /** A record holds one field per column, in column order, each the row's
      own text for that column with no conversion. */
  lemma {:induction false} FieldsVerbatim(row: Row, cols: seq<string>)
    requires HasColumns(row, cols)
    ensures |Fields(row, cols)| == |cols|
    ensures forall i :: 0 <= i < |cols| ==> Fields(row, cols)[i] == Field(cols[i], row[cols[i]])
    decreases |cols|
  {
    if cols != [] {
      assert forall c :: c in cols[1..] ==> c in cols;
      FieldsVerbatim(row, cols[1..]);
      assert forall i :: 1 <= i < |cols| ==> cols[i] == cols[1..][i - 1];
    }
  }

  /** One iteration of the `for row in reader` loop of `process_csv`. */
  function AddRow(s: Structured, row: Row): (r: Result<Structured, PyError>)
    ensures r.Success? <==>
              ("baby_id" in row && HasColumns(row, RecordColumns) &&
               (row["baby_id"] !in s.patients ==> HasColumns(row, StaticColumns)))
    ensures r.Failure? ==> r.error.KeyError? && r.error.key !in row
  {
    if "baby_id" !in row then Failure(KeyError("baby_id"))
    else
      var id := row["baby_id"];
      if id !in s.patients && FirstMissing(row, StaticColumns).Some? then
        Failure(KeyError(FirstMissing(row, StaticColumns).value))
      else if FirstMissing(row, RecordColumns).Some? then
        Failure(KeyError(FirstMissing(row, RecordColumns).value))
      else if id in s.patients then
        var p := s.patients[id];
        Success(Structured(s.order, s.patients[id := p.(records := p.records + [RecordOf(row)])]))
      else
        Success(Structured(s.order + [id], s.patients[id := Patient(id, StaticsOf(row), [RecordOf(row)])]))
  }

  predicate SomeRowLacks(rows: seq<Row>, column: string) {
    exists i :: 0 <= i < |rows| && column !in rows[i]
  }

  /** What `process_csv` returns for the rows the reader yields, in order.
      The only exception it raises is the KeyError of a column some row lacks. */
  function Group(rows: seq<Row>): (r: Result<Structured, PyError>)
    ensures r.Failure? ==> r.error.KeyError? && SomeRowLacks(rows, r.error.key)
  {
    if rows == [] then Success(Structured([], map[]))
    else
      var n := |rows| - 1;
      match Group(rows[..n])
      case Failure(e) =>
        assert SomeRowLacks(rows, e.key) by {
          var i :| 0 <= i < n && e.key !in rows[..n][i];
          assert rows[..n][i] == rows[i];
        }
        Failure(e)
      case Success(s) =>
        var r := AddRow(s, rows[n]);
        assert r.Failure? ==> SomeRowLacks(rows, r.error.key);
        r
  }

  lemma GroupStep(rows: seq<Row>, i: nat)
    requires i < |rows|
    ensures Group(rows[..i + 1]) ==
              if Group(rows[..i]).Failure? then Group(rows[..i])
              else AddRow(Group(rows[..i]).value, rows[i])
  {
    assert rows[..i + 1][..i] == rows[..i];
  }

  /** A successful grouping succeeded on every prefix, the last row included. */
  lemma GroupPrefix(rows: seq<Row>)
    requires rows != [] && Group(rows).Success?
    ensures Group(rows[..|rows| - 1]).Success?
    ensures Group(rows) == AddRow(Group(rows[..|rows| - 1]).value, rows[|rows| - 1])
  {
  }

  /** Once a row raised, the remaining rows do not matter. */
  lemma {:induction false} GroupFailureSticks(rows: seq<Row>, i: nat)
    requires i <= |rows| && Group(rows[..i]).Failure?
    ensures Group(rows) == Group(rows[..i])
    decreases |rows| - i
  {
    if i < |rows| {
      assert rows[..i + 1][..i] == rows[..i];
      GroupFailureSticks(rows, i + 1);
    } else {
      assert rows[..i] == rows;
    }
  }

  /** `process_csv`: the dict is built in place, one row at a time. */
  method ProcessCsv(rows: seq<Row>) returns (r: Result<Structured, PyError>)
    ensures r == Group(rows)
  {
    var patients: map<string, Patient> := map[];
    var order: seq<string> := [];
    var i := 0;
    assert rows[..0] == [];
    while i < |rows|
      invariant 0 <= i <= |rows|
      invariant Group(rows[..i]) == Success(Structured(order, patients))
    {
      var row := rows[i];
      GroupStep(rows, i);
      ghost var before := Structured(order, patients);
      if "baby_id" !in row {
        GroupFailureSticks(rows, i + 1);
        return Failure(KeyError("baby_id"));
      }
      var babyId := row["baby_id"];
      var known := babyId in patients;
      if !known {
        var missing := FirstMissing(row, StaticColumns);
        if missing.Some? {
          GroupFailureSticks(rows, i + 1);
          return Failure(KeyError(missing.value));
        }
      }
      var missing := FirstMissing(row, RecordColumns);
      if missing.Some? {
        GroupFailureSticks(rows, i + 1);
        return Failure(KeyError(missing.value));
      }
      var record := RecordOf(row);
      if known {
        // a later row of a known id only appends its record
        patients := patients[babyId := patients[babyId].(records := patients[babyId].records + [record])];
      } else {
        // the first row of an id creates the entry from its static columns, with its record
        patients := patients[babyId := Patient(babyId, StaticsOf(row), [record])];
        order := order + [babyId];
      }
      assert AddRow(before, row) == Success(Structured(order, patients));
      assert Group(rows[..i + 1]) == Success(Structured(order, patients));
      i := i + 1;
    }
    assert rows[..i] == rows;
    return Success(Structured(order, patients));
  }

  // ---------------------------------------------------------------------
  // What the grouping promises

  predicate Keyed(rows: seq<Row>) {
    forall i :: 0 <= i < |rows| ==> "baby_id" in rows[i]
  }

  /** Every row has a `baby_id` and every record column. */
  predicate Complete(rows: seq<Row>) {
    Keyed(rows) && forall i :: 0 <= i < |rows| ==> HasColumns(rows[i], RecordColumns)
  }

  function Ids(rows: seq<Row>): (ids: seq<string>)
    requires Keyed(rows)
    ensures |ids| == |rows|
    ensures forall i :: 0 <= i < |rows| ==> ids[i] == rows[i]["baby_id"]
  {
    seq(|rows|, i requires 0 <= i < |rows| => rows[i]["baby_id"])
  }

  lemma IdsSnoc(p: seq<Row>, row: Row)
    requires Keyed(p) && "baby_id" in row
    ensures Keyed(p + [row])
    ensures Ids(p + [row]) == Ids(p) + [row["baby_id"]]
  {
    assert forall i :: 0 <= i < |p| ==> (p + [row])[i] == p[i];
  }

  lemma CompleteSnoc(p: seq<Row>, row: Row)
    requires Complete(p) && "baby_id" in row && HasColumns(row, RecordColumns)
    ensures Complete(p + [row])
    ensures (p + [row])[..|p|] == p
  {
    assert forall i :: 0 <= i < |p| ==> (p + [row])[i] == p[i];
  }

  /** What an accepted row does to the dict: a known id gets the row's record
      appended, a new id is added last with the row's statics and record, and
      every other entry is untouched. */
  lemma AddRowEffect(s: Structured, row: Row)
    requires AddRow(s, row).Success?
    ensures "baby_id" in row && HasColumns(row, RecordColumns)
    ensures var id, r := row["baby_id"], AddRow(s, row).value;
      r.order == (if id in s.patients then s.order else s.order + [id]) &&
      r.patients.Keys == s.patients.Keys + {id} &&
      (forall k :: k in s.patients && k != id ==> r.patients[k] == s.patients[k]) &&
      r.patients[id] ==
        if id in s.patients then s.patients[id].(records := s.patients[id].records + [RecordOf(row)])
        else Patient(id, StaticsOf(row), [RecordOf(row)])
  {
  }

  /** The dict's keys, in insertion order, are exactly its entries' keys, and
      each entry's "baby_id" field is its own key. */
  ghost predicate KeysConsistent(s: Structured) {
    (forall k :: k in s.order <==> k in s.patients) &&
    (forall k :: k in s.patients ==> s.patients[k].babyId == k)
  }

  /** What grouping `rows` into `s` establishes about the dict's keys. */
  ghost predicate KeysInv(rows: seq<Row>, s: Structured) {
    Complete(rows) && KeysConsistent(s) && s.order == Dedup(Ids(rows))
  }

  lemma AddRowConsistent(s: Structured, row: Row)
    requires KeysConsistent(s) && AddRow(s, row).Success?
    ensures KeysConsistent(AddRow(s, row).value)
  {
    AddRowEffect(s, row);
  }

  lemma AddRowOrder(p: seq<Row>, s: Structured, row: Row)
    requires KeysInv(p, s) && AddRow(s, row).Success?
    ensures "baby_id" in row
    ensures AddRow(s, row).value.order == Dedup(Ids(p) + [row["baby_id"]])
  {
    AddRowEffect(s, row);
    var id := row["baby_id"];
    DedupSnoc(Ids(p), id);
    assert id in s.order <==> id in Dedup(Ids(p));
  }

  lemma AddRowKeys(rows: seq<Row>, s: Structured)
    requires rows != [] && KeysInv(rows[..|rows| - 1], s) && AddRow(s, rows[|rows| - 1]).Success?
    ensures KeysInv(rows, AddRow(s, rows[|rows| - 1]).value)
  {
    var p, row := rows[..|rows| - 1], rows[|rows| - 1];
    Snoc(rows);
    AddRowEffect(s, row);
    CompleteSnoc(p, row);
    IdsSnoc(p, row);
    AddRowOrder(p, s, row);
    AddRowConsistent(s, row);
  }

  /** Grouping creates one entry per distinct `baby_id`, keyed by it, in the
      order of the ids' first rows. */
  lemma {:induction false} GroupKeys(rows: seq<Row>)
    requires Group(rows).Success?
    ensures KeysInv(rows, Group(rows).value)
    decreases |rows|
  {
    if rows != [] {
      var p, row := rows[..|rows| - 1], rows[|rows| - 1];
      GroupPrefix(rows);
      GroupKeys(p);
      AddRowKeys(rows, Group(p).value);
    }
  }

  /** The records of patient `k`: one per row with that id, in row order. */
  function RecordsFor(rows: seq<Row>, k: string): seq<Record>
    requires Complete(rows)
  {
    if rows == [] then []
    else
      var last := rows[|rows| - 1];
      RecordsFor(rows[..|rows| - 1], k) + (if last["baby_id"] == k then [RecordOf(last)] else [])
  }

  lemma {:induction false} RecordsForCount(rows: seq<Row>, k: string)
    requires Complete(rows)
    ensures |RecordsFor(rows, k)| == Occ(k, Ids(rows))
    decreases |rows|
  {
    if rows != [] {
      var p, row := rows[..|rows| - 1], rows[|rows| - 1];
      RecordsForCount(p, k);
      IdsSnoc(p, row);
      Snoc(rows);
      assert (Ids(p) + [row["baby_id"]])[..|p|] == Ids(p);
    }
  }

  /** Every entry of `s` holds the records of its own rows of `rows`. */
  ghost predicate RecordsInv(rows: seq<Row>, s: Structured) {
    Complete(rows) && forall k :: k in s.patients ==> s.patients[k].records == RecordsFor(rows, k)
  }

  lemma AddRowRecords(rows: seq<Row>, s: Structured)
    requires rows != [] && KeysInv(rows[..|rows| - 1], s) && RecordsInv(rows[..|rows| - 1], s)
    requires AddRow(s, rows[|rows| - 1]).Success?
    ensures RecordsInv(rows, AddRow(s, rows[|rows| - 1]).value)
  {
    var p, row := rows[..|rows| - 1], rows[|rows| - 1];
    Snoc(rows);
    AddRowEffect(s, row);
    CompleteSnoc(p, row);
    var id := row["baby_id"];
    if id !in s.patients {
      RecordsForCount(p, id);
    }
  }

  /** Each patient's records are its own rows' records, verbatim and in row
      order; appending to one patient leaves the others' records alone. */
  lemma {:induction false} GroupRecords(rows: seq<Row>)
    requires Group(rows).Success?
    ensures RecordsInv(rows, Group(rows).value)
    decreases |rows|
  {
    if rows != [] {
      var p, row := rows[..|rows| - 1], rows[|rows| - 1];
      GroupPrefix(rows);
      GroupRecords(p);
      GroupKeys(p);
      AddRowRecords(rows, Group(p).value);
    }
  }

  /** The static attributes of the first row whose id is `k`, if any. */
  function StaticsFor(rows: seq<Row>, k: string): Option<Statics>
    requires Keyed(rows)
  {
    if rows == [] then None
    else
      var last := rows[|rows| - 1];
      match StaticsFor(rows[..|rows| - 1], k)
      case Some(st) => Some(st)
      case None => if last["baby_id"] == k then Some(StaticsOf(last)) else None
  }

  /** `StaticsFor` finds an id exactly when it occurs, and then reads the
      first row that carries it. */
  lemma {:induction false} StaticsForFirst(rows: seq<Row>, k: string)
    requires Keyed(rows)
    ensures StaticsFor(rows, k).Some? <==> k in Ids(rows)
    ensures forall i :: (0 <= i < |rows| && rows[i]["baby_id"] == k &&
              forall j :: 0 <= j < i ==> rows[j]["baby_id"] != k) ==>
              StaticsFor(rows, k) == Some(StaticsOf(rows[i]))
    decreases |rows|
  {
    if rows != [] {
      var p, row := rows[..|rows| - 1], rows[|rows| - 1];
      StaticsForFirst(p, k);
      IdsSnoc(p, row);
      Snoc(rows);
      assert forall i :: 0 <= i < |p| ==> rows[i] == p[i];
    }
  }

  /** Every entry of `s` holds the statics of the first row of its id in `rows`. */
  ghost predicate StaticsInv(rows: seq<Row>, s: Structured) {
    Keyed(rows) && forall k :: k in s.patients ==> Some(s.patients[k].statics) == StaticsFor(rows, k)
  }

  lemma AddRowStatics(rows: seq<Row>, s: Structured)
    requires rows != [] && KeysInv(rows[..|rows| - 1], s) && StaticsInv(rows[..|rows| - 1], s)
    requires AddRow(s, rows[|rows| - 1]).Success?
    ensures StaticsInv(rows, AddRow(s, rows[|rows| - 1]).value)
  {
    var p, row := rows[..|rows| - 1], rows[|rows| - 1];
    Snoc(rows);
    AddRowEffect(s, row);
    CompleteSnoc(p, row);
    var id := row["baby_id"];
    if id !in s.patients {
      StaticsForFirst(p, id);
    }
  }

  /** A patient's static attributes are those of the first row with its id:
      later rows of the same id never change them. */
  lemma {:induction false} GroupStatics(rows: seq<Row>)
    requires Group(rows).Success?
    ensures StaticsInv(rows, Group(rows).value)
    decreases |rows|
  {
    if rows != [] {
      var p, row := rows[..|rows| - 1], rows[|rows| - 1];
      GroupPrefix(rows);
      GroupStatics(p);
      GroupKeys(p);
      AddRowStatics(rows, Group(p).value);
    }
  }

  function CountRecords(order: seq<string>, patients: map<string, Patient>): nat
    requires forall k :: k in order ==> k in patients
  {
    if order == [] then 0
    else CountRecords(order[..|order| - 1], patients) + |patients[order[|order| - 1]].records|
  }

  /** The number of records in the written document. */
  function TotalRecords(s: Structured): nat
    requires forall k :: k in s.order ==> k in s.patients
  {
    CountRecords(s.order, s.patients)
  }

  lemma {:induction false} CountRecordsIsOccSum(order: seq<string>, patients: map<string, Patient>, ids: seq<string>)
    requires forall k :: k in order ==> k in patients && |patients[k].records| == Occ(k, ids)
    ensures CountRecords(order, patients) == OccSum(order, ids)
    decreases |order|
  {
    if order != [] {
      CountRecordsIsOccSum(order[..|order| - 1], patients, ids);
    }
  }

  /** Every row read, the first of each id included, becomes exactly one record. */
  lemma GroupTotal(rows: seq<Row>)
    requires Group(rows).Success?
    ensures KeysConsistent(Group(rows).value)
    ensures TotalRecords(Group(rows).value) == |rows|
  {
    GroupKeys(rows);
    GroupRecords(rows);
    var s := Group(rows).value;
    forall k | k in s.order
      ensures k in s.patients && |s.patients[k].records| == Occ(k, Ids(rows))
    {
      RecordsForCount(rows, k);
    }
    CountRecordsIsOccSum(s.order, s.patients, Ids(rows));
    OccSumCovers(s.order, Ids(rows));
  }

  /** No row before this one carries `id`. */
  predicate NewId(before: seq<Row>, id: string) {
    forall j :: 0 <= j < |before| ==> "baby_id" !in before[j] || before[j]["baby_id"] != id
  }

  /** Whether `row`, read after `before`, has the columns `process_csv` reads
      from it: the key, the static columns when its id is new, and every
      record column. */
  predicate RowAccepted(before: seq<Row>, row: Row) {
    "baby_id" in row &&
    (NewId(before, row["baby_id"]) ==> HasColumns(row, StaticColumns)) &&
    HasColumns(row, RecordColumns)
  }

  predicate AllAccepted(rows: seq<Row>) {
    forall i :: 0 <= i < |rows| ==> RowAccepted(rows[..i], rows[i])
  }

  lemma AllAcceptedSnoc(rows: seq<Row>)
    requires rows != []
    ensures AllAccepted(rows) <==>
              AllAccepted(rows[..|rows| - 1]) && RowAccepted(rows[..|rows| - 1], rows[|rows| - 1])
  {
    var p := rows[..|rows| - 1];
    assert forall i :: 0 <= i < |p| ==> rows[..i] == p[..i] && rows[i] == p[i];
  }

  lemma NewIdIff(p: seq<Row>, id: string)
    requires Keyed(p)
    ensures NewId(p, id) <==> id !in Ids(p)
  {
  }

  /** `process_csv` returns normally exactly when every row has the columns
      it reads; otherwise it raises KeyError (never a default value). */
  lemma {:induction false} GroupSucceedsIff(rows: seq<Row>)
    ensures Group(rows).Success? <==> AllAccepted(rows)
    ensures Group(rows).Failure? ==> Group(rows).error.KeyError?
    decreases |rows|
  {
    if rows != [] {
      var p, row := rows[..|rows| - 1], rows[|rows| - 1];
      GroupSucceedsIff(p);
      AllAcceptedSnoc(rows);
      if Group(p).Success? {
        GroupKeys(p);
        if "baby_id" in row {
          NewIdIff(p, row["baby_id"]);
        }
      }
    }
  }

  // ---------------------------------------------------------------------
  // The written document

  function RecordJson(r: Record): Json {
    JObject(seq(|r|, i requires 0 <= i < |r| => Member(r[i].column, JStr(r[i].text))))
  }

  /** One value of the `patients` dict as `json.dump` writes it. */
  function PatientJson(p: Patient): Json {
    JObject([
      Member("baby_id", JStr(p.babyId)),
      Member("name", JStr(p.statics.name)),
      Member("gender", JStr(p.statics.gender)),
      Member("gestational_age_weeks", JStr(p.statics.gestationalAgeWeeks)),
      Member("birth", JObject([
        Member("weight_kg", JStr(p.statics.birth.weightKg)),
        Member("length_cm", JStr(p.statics.birth.lengthCm)),
        Member("head_circumference_cm", JStr(p.statics.birth.headCircumferenceCm))])),
      Member("records", JArray(seq(|p.records|, i requires 0 <= i < |p.records| => RecordJson(p.records[i]))))])
  }

  /** The whole dict, its patients in insertion order. */
  function Document(s: Structured): Json
    requires forall k :: k in s.order ==> k in s.patients
  {
    JObject(seq(|s.order|, i requires 0 <= i < |s.order| => Member(s.order[i], PatientJson(s.patients[s.order[i]]))))
  }

  /** What `process_csv` followed by `save_output` writes for a CSV's rows:
      every patient of the grouping under its own key, in insertion order,
      or the KeyError the grouping raised. */
  function GroupedDocument(rows: seq<Row>): (r: Result<Json, PyError>)
    ensures r.Success? <==> Group(rows).Success?
    ensures r.Failure? ==> r.error == Group(rows).error
    ensures r.Success? ==>
              var s := Group(rows).value;
              r.value.JObject? && |r.value.members| == |s.order| &&
              forall i :: 0 <= i < |s.order| ==>
                s.order[i] in s.patients &&
                r.value.members[i] == Member(s.order[i], PatientJson(s.patients[s.order[i]]))
  {
    match Group(rows)
    case Failure(e) => Failure(e)
    case Success(s) =>
      GroupKeys(rows);
      Success(Document(s))
  }

  /** Reading the written document back by key finds each patient's own
      entry: the keys are distinct, so the first match is the only one. */
  lemma DocumentLookup(s: Structured, k: string)
    requires KeysConsistent(s) && NoDup(s.order) && k in s.patients
    ensures Lookup(Document(s).members, k) == Some(PatientJson(s.patients[k]))
  {
    var ms := Document(s).members;
    assert k in s.order;
    var i :| 0 <= i < |s.order| && s.order[i] == k;
    assert ms[i] == Member(k, PatientJson(s.patients[k]));
    assert forall j :: 0 <= j < i ==> ms[j].key == s.order[j];
    LookupFirst(ms, i);
  }

  // ---------------------------------------------------------------------
  // load_info

  /** `load_info`: the entry list the inventory document describes. A dict
      with "arquivos" gives that value (checked before "files"), a dict with
      "files" gives that value, any other dict is one entry on its own, a list
      is the entry list itself; anything else raises ValueError. */
  function LoadInfo(data: Json): (r: Result<Json, PyError>)
    ensures r.Failure? <==> !data.JObject? && !data.JArray?
    ensures r.Failure? ==> r.error == ValueError
    ensures data.JArray? ==> r == Success(data)
    ensures data.JObject? && HasKey(data.members, "arquivos") ==>
              r == Success(Lookup(data.members, "arquivos").value)
    ensures data.JObject? && !HasKey(data.members, "arquivos") && HasKey(data.members, "files") ==>
              r == Success(Lookup(data.members, "files").value)
    ensures data.JObject? && !HasKey(data.members, "arquivos") && !HasKey(data.members, "files") ==>
              r == Success(JArray([data]))
  {
    match data
    case JObject(ms) =>
      (match Lookup(ms, "arquivos")
       case Some(v) => Success(v)
       case None =>
         match Lookup(ms, "files")
         case Some(v) => Success(v)
         case None => Success(JArray([data])))
    case JArray(_) => Success(data)
    case _ => Failure(ValueError)
  }

  // ---------------------------------------------------------------------
  // File names

  /** `s.rfind(c)`: the last index of `c` in `s`, or -1. */
  function RFind(s: string, c: char): (i: int)
    ensures -1 <= i < |s|
    ensures i >= 0 ==> s[i] == c
    ensures forall j :: i < j < |s| ==> s[j] != c
  {
    if s == [] then -1
    else if s[|s| - 1] == c then |s| - 1
    else RFind(s[..|s| - 1], c)
  }

  lemma {:induction false} RFindAppend(a: string, b: string, c: char)
    requires c !in b
    ensures RFind(a + b, c) == RFind(a, c)
    decreases |b|
  {
    if b != [] {
      assert (a + b)[..|a + b| - 1] == a + b[..|b| - 1];
      RFindAppend(a, b[..|b| - 1], c);
    } else {
      assert a + b == a;
    }
  }

  predicate AllDots(s: string) {
    forall i :: 0 <= i < |s| ==> s[i] == '.'
  }

  /** `os.path.splitext` on POSIX: the root and the last extension, which
      starts at the last '.' of the last path component unless everything
      before that '.' in the component is dots too. */
  function SplitExt(p: string): (r: (string, string))
    ensures r.0 + r.1 == p
  {
    var sep, dot := RFind(p, '/'), RFind(p, '.');
    if dot > sep && !AllDots(p[sep + 1..dot]) then (p[..dot], p[dot..])
    else (p, [])
  }

  /** The extension split off is empty, or one '.' followed by neither '.'
      nor '/': it never reaches into a directory name. */
  lemma SplitExtShape(p: string)
    ensures var ext := SplitExt(p).1;
      (ext != [] ==> ext[0] == '.') &&
      (forall j :: 0 <= j < |ext| ==> ext[j] != '/') &&
      (forall j :: 0 < j < |ext| ==> ext[j] != '.')
  {
    var sep, dot := RFind(p, '/'), RFind(p, '.');
    if dot > sep && !AllDots(p[sep + 1..dot]) {
      var ext := p[dot..];
      assert SplitExt(p).1 == ext;
      assert forall j :: 0 <= j < |ext| ==> ext[j] == p[dot + j];
    }
  }

  /** `os.path.join(a, b)` on POSIX: an absolute `b` replaces `a`. */
  function Join(a: string, b: string): (r: string)
    ensures |b| > 0 && b[0] == '/' ==> r == b
    ensures (|b| == 0 || b[0] != '/') && a != [] && a[|a| - 1] != '/' ==> r == a + "/" + b
  {
    if |b| > 0 && b[0] == '/' then b
    else if a == [] || a[|a| - 1] == '/' then a + b
    else a + "/" + b
  }

  /** Where `save_output` writes the document made from `fileName`: always a
      ".json" name, under "output/" unless the stem is an absolute path. */
  function OutputPath(fileName: string): (r: string)
    ensures |r| >= 5 && r[|r| - 5..] == ".json"
    ensures var stem := SplitExt(fileName).0;
            (stem == [] || stem[0] != '/') ==> r == "output/" + stem + ".json"
  {
    var stem := SplitExt(fileName).0;
    var b := stem + ".json";
    assert b[|b| - 5..] == ".json";
    assert b[0] == if stem == [] then '.' else stem[0];
    assert OutputDir + "/" + b == "output/" + stem + ".json";
    Join(OutputDir, b)
  }

  lemma SplitExtOfPlainName(stem: string, ext: string)
    requires '/' !in stem && !AllDots(stem)
    requires |ext| > 0 && ext[0] == '.' && '.' !in ext[1..] && '/' !in ext
    ensures SplitExt(stem + ext) == (stem, ext)
  {
    var p := stem + ext;
    RFindAppend(stem, ext, '/');
    assert RFind(stem, '/') == -1;
    assert RFind(p, '.') == |stem| by {
      assert ext == "." + ext[1..];
      assert p == (stem + ".") + ext[1..];
      RFindAppend(stem + ".", ext[1..], '.');
    }
    assert p[0..|stem|] == stem;
  }

  /** A plain file name loses only its last extension: "a.b.csv" is written
      as "output/a.b.json", and "data.csv" as "output/data.json". */
  lemma OutputPathSwapsExtension(stem: string, ext: string)
    requires '/' !in stem && !AllDots(stem)
    requires |ext| > 0 && ext[0] == '.' && '.' !in ext[1..] && '/' !in ext
    ensures OutputPath(stem + ext) == "output/" + stem + ".json"
  {
    SplitExtOfPlainName(stem, ext);
    assert stem[0] != '/';
  }

  /** A name without an extension keeps its whole name. */
  lemma OutputPathNoExtension(name: string)
    requires '.' !in name && '/' !in name
    ensures OutputPath(name) == "output/" + name + ".json"
  {
  }

  // ---------------------------------------------------------------------
  // main

  /** One output file `main` writes: the CSV it read, where it wrote, and what. */
  datatype Job = Job(inputPath: string, outputPath: string, document: Json)

  predicate IsKaggle(entry: Json) {
    entry.JObject? && Lookup(entry.members, "tipo") == Some(JStr(KaggleCsv))
  }

  /** One turn of `main`'s loop: read "arquivo" and "tipo" (a non-dict entry
      or a missing key raises), then only a "kaggle csv" entry is grouped
      from `input/<arquivo>` and written. `files` holds the rows of every CSV
      that exists, by path. */
  function ProcessEntry(entry: Json, files: map<string, seq<Row>>): (r: Result<Option<Job>, PyError>)
    ensures r.Success? && r.value.Some? ==> IsKaggle(entry)
    ensures r.Success? && r.value.None? <==>
              (entry.JObject? && HasKey(entry.members, "arquivo") &&
               HasKey(entry.members, "tipo") && !IsKaggle(entry))
    ensures r.Success? && r.value.Some? ==>
              HasKey(entry.members, "arquivo") && Lookup(entry.members, "arquivo").value.JStr? &&
              var name := Lookup(entry.members, "arquivo").value.s;
              var path := Join(InputDir, name);
              path in files && GroupedDocument(files[path]).Success? &&
              r.value.value == Job(path, OutputPath(name), GroupedDocument(files[path]).value)
    ensures (IsKaggle(entry) && HasKey(entry.members, "arquivo") && Lookup(entry.members, "arquivo").value.JStr? &&
             Join(InputDir, Lookup(entry.members, "arquivo").value.s) !in files) ==>
              r == Failure(FileNotFound(Join(InputDir, Lookup(entry.members, "arquivo").value.s)))
    ensures (IsKaggle(entry) && HasKey(entry.members, "arquivo") && Lookup(entry.members, "arquivo").value.JStr? &&
             Join(InputDir, Lookup(entry.members, "arquivo").value.s) in files) ==>
              var path := Join(InputDir, Lookup(entry.members, "arquivo").value.s);
              (GroupedDocument(files[path]).Failure? ==> r == Failure(GroupedDocument(files[path]).error)) &&
              (GroupedDocument(files[path]).Success? ==> r.Success? && r.value.Some?)
  {
    match Subscript(entry, "arquivo")
    case Failure(e) => Failure(e)
    case Success(name) =>
      match Subscript(entry, "tipo")
      case Failure(e) => Failure(e)
      case Success(tipo) =>
        if tipo != JStr(KaggleCsv) then Success(None)
        else if !name.JStr? then Failure(TypeError)
        else
          var path := Join(InputDir, name.s);
          if path !in files then Failure(FileNotFound(path))
          else
            match GroupedDocument(files[path])
            case Failure(e) => Failure(e)
            case Success(doc) => Success(Some(Job(path, OutputPath(name.s), doc)))
  }

  /** The files written, in order, and the exception that ended the run, if any. */
  datatype Run = Run(jobs: seq<Job>, error: Option<PyError>)

  /** `main`'s loop over the entries: each kaggle entry's file is written
      before the next entry is read, so an exception keeps what was written. */
  function RunEntries(entries: seq<Json>, files: map<string, seq<Row>>): Run {
    if entries == [] then Run([], None)
    else
      var prev := RunEntries(entries[..|entries| - 1], files);
      if prev.error.Some? then prev
      else
        match ProcessEntry(entries[|entries| - 1], files)
        case Failure(e) => Run(prev.jobs, Some(e))
        case Success(None) => prev
        case Success(Some(job)) => Run(prev.jobs + [job], None)
  }

  /** The whole of `main`: `load_info`, then iterate what it returned. */
  function RunAll(info: Json, files: map<string, seq<Row>>): Run {
    match LoadInfo(info)
    case Failure(e) => Run([], Some(e))
    case Success(list) =>
      match Iterate(list)
      case Failure(e) => Run([], Some(e))
      case Success(entries) => RunEntries(entries, files)
  }

  lemma RunEntriesStep(entries: seq<Json>, files: map<string, seq<Row>>, i: nat)
    requires i < |entries|
    ensures RunEntries(entries[..i + 1], files) ==
              var prev := RunEntries(entries[..i], files);
              if prev.error.Some? then prev
              else
                match ProcessEntry(entries[i], files)
                case Failure(e) => Run(prev.jobs, Some(e))
                case Success(None) => prev
                case Success(Some(job)) => Run(prev.jobs + [job], None)
  {
    assert entries[..i + 1][..i] == entries[..i];
  }

  lemma {:induction false} RunErrorSticks(entries: seq<Json>, files: map<string, seq<Row>>, i: nat)
    requires i <= |entries| && RunEntries(entries[..i], files).error.Some?
    ensures RunEntries(entries, files) == RunEntries(entries[..i], files)
    decreases |entries| - i
  {
    if i < |entries| {
      RunEntriesStep(entries, files, i);
      RunErrorSticks(entries, files, i + 1);
    } else {
      assert entries[..i] == entries;
    }
  }

  /** `main`, run as the script does: load the entry list, then loop over it. */
  method RunBatch(info: Json, files: map<string, seq<Row>>) returns (run: Run)
    ensures run == RunAll(info, files)
  {
    var list := LoadInfo(info);
    if list.Failure? {
      return Run([], Some(list.error));
    }
    var it := Iterate(list.value);
    if it.Failure? {
      return Run([], Some(it.error));
    }
    run := WriteEntries(it.value, files);
  }

  /** `main`'s `for entry in files_info` loop: one file per kaggle entry,
      until an entry raises. */
  method WriteEntries(entries: seq<Json>, files: map<string, seq<Row>>) returns (run: Run)
    ensures run == RunEntries(entries, files)
  {
    var jobs: seq<Job> := [];
    var i := 0;
    assert entries[..0] == [];
    while i < |entries|
      invariant 0 <= i <= |entries|
      invariant RunEntries(entries[..i], files) == Run(jobs, None)
    {
      RunEntriesStep(entries, files, i);
      var step := ProcessEntry(entries[i], files);
      if step.Failure? {
        RunErrorSticks(entries, files, i + 1);
        return Run(jobs, Some(step.error));
      }
      if step.value.Some? {
        jobs := jobs + [step.value.value];
      }
      i := i + 1;
    }
    assert entries[..i] == entries;
    return Run(jobs, None);
  }

  /** Entries tagged "kaggle csv". */
  function CountKaggle(entries: seq<Json>): (n: nat)
    ensures n <= |entries|
  {
    if entries == [] then 0
    else CountKaggle(entries[..|entries| - 1]) + (if IsKaggle(entries[|entries| - 1]) then 1 else 0)
  }

  /** A run that ends normally writes one file per "kaggle csv" entry and no
      other, in entry order: the i-th file written is the one the i-th kaggle
      entry asks for, read from `input/<arquivo>` and grouped. */
  lemma {:induction false} RunSelectsKaggle(entries: seq<Json>, files: map<string, seq<Row>>)
    requires RunEntries(entries, files).error.None?
    ensures |RunEntries(entries, files).jobs| == |Filter(entries, IsKaggle)| == CountKaggle(entries)
    ensures forall i :: 0 <= i < |RunEntries(entries, files).jobs| ==>
              ProcessEntry(Filter(entries, IsKaggle)[i], files) == Success(Some(RunEntries(entries, files).jobs[i]))
    decreases |entries|
  {
    if entries != [] {
      var p, e := entries[..|entries| - 1], entries[|entries| - 1];
      RunSelectsKaggle(p, files);
      var jobs, prev := RunEntries(entries, files).jobs, RunEntries(p, files).jobs;
      var ks, pk := Filter(entries, IsKaggle), Filter(p, IsKaggle);
      if IsKaggle(e) {
        assert ks == pk + [e];
        assert jobs == prev + [ProcessEntry(e, files).value.value];
      } else {
        assert ks == pk;
        assert jobs == prev;
      }
    }
  }
}
