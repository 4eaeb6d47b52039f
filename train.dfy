/** The data preparation of ia/train.py: the nested patient/record loop that
    flattens the structured JSON into one row per record, the `risk_level`
    fallback, `dropna`, and the label encoding that yields the feature matrix,
    the target codes and the class names the evaluation report prints. The
    random forest, the split and the report itself are not part of this model. */
module Train {
  import opened Wrappers
  import opened Values
  import opened Numbers
  import opened Readings
  import opened LabelEncoding
  import opened Results
  import opened Seqs

  /** The 18 model inputs, in column order. */
  const Features: seq<string> := [
    "gestational_age_weeks", "birth_weight_kg", "birth_length_cm",
    "birth_head_circumference_cm", "age_days", "weight_kg", "length_cm",
    "head_circumference_cm", "temperature_c", "heart_rate_bpm",
    "respiratory_rate_bpm", "oxygen_saturation", "feeding_frequency_per_day",
    "urine_output_count", "stool_count", "jaundice_level_mg_dl", "apgar_score",
    "gender_encoded"
  ]

  /** One `linha`: the patient's basic info, the record's date and readings,
      and the resolved risk label. */
  datatype TrainRow = TrainRow(basic: Basic, date: Json, vitals: seq<real>, riskLevel: Json)

  /** `float(birth.get(key, 0))` for each key in turn; the first that raises stops the rest. */
  function BirthFloats(birth: seq<Member>, keys: seq<string>): (r: Result<seq<real>, PyError>)
    ensures r.Success? <==> forall k :: 0 <= k < |keys| ==> PyFloat(Get(birth, keys[k], JNum(0.0))).Success?
    ensures r.Success? ==> |r.value| == |keys|
    ensures r.Success? ==> forall k :: 0 <= k < |keys| ==> PyFloat(Get(birth, keys[k], JNum(0.0))) == Success(r.value[k])
    ensures r.Failure? ==>
      exists k :: 0 <= k < |keys| && PyFloat(Get(birth, keys[k], JNum(0.0))) == Failure(r.error) &&
        forall j :: 0 <= j < k ==> PyFloat(Get(birth, keys[j], JNum(0.0))).Success?
  {
    var rs := BirthResults(birth, keys);
    Collect(rs)
  }

  /** The outcome of `float(birth.get(key, 0))` for each key. */
  function BirthResults(birth: seq<Member>, keys: seq<string>): (r: seq<Result<real, PyError>>)
    ensures |r| == |keys| && forall k :: 0 <= k < |keys| ==> r[k] == PyFloat(Get(birth, keys[k], JNum(0.0)))
  {
    seq(|keys|, k requires 0 <= k < |keys| => PyFloat(Get(birth, keys[k], JNum(0.0))))
  }

  /** `float(paciente.get("gestational_age_weeks", 0))`. */
  function GestationalAge(p: seq<Member>): Result<real, PyError> {
    PyFloat(Get(p, "gestational_age_weeks", JNum(0.0)))
  }

  /** `info_basica` for one patient. `.get` on a non-dict raises AttributeError;
      the static numbers go through `float`, so a missing key reads as 0 but a
      value that is not a number raises; `paciente["birth"]` must exist and be a dict. */
  function TrainBasic(id: string, p: Json): (r: Result<Basic, PyError>)
    ensures !p.JObject? ==> r == Failure(AttributeError)
    ensures p.JObject? && GestationalAge(p.members).Failure? ==> r == Failure(GestationalAge(p.members).error)
    ensures p.JObject? && GestationalAge(p.members).Success? && !HasKey(p.members, "birth") ==> r == Failure(KeyError("birth"))
    ensures (p.JObject? && GestationalAge(p.members).Success? && HasKey(p.members, "birth") &&
             !Lookup(p.members, "birth").value.JObject?) ==> r == Failure(AttributeError)
    ensures (p.JObject? && GestationalAge(p.members).Success? && HasKey(p.members, "birth") &&
             Lookup(p.members, "birth").value.JObject? &&
             BirthFloats(Lookup(p.members, "birth").value.members, BirthKeys).Failure?) ==>
              r == Failure(BirthFloats(Lookup(p.members, "birth").value.members, BirthKeys).error)
    ensures r.Success? ==> p.JObject? && r.value.babyId == id && |r.value.statics| == 4
    ensures r.Success? ==> r.value.name == Get(p.members, "name", JNull) && r.value.gender == Get(p.members, "gender", JNull)
    ensures r.Success? ==> Success(r.value.statics[0]) == GestationalAge(p.members)
    ensures r.Success? ==>
              HasKey(p.members, "birth") && Lookup(p.members, "birth").value.JObject? &&
              forall k :: 0 <= k < |BirthKeys| ==>
                Success(r.value.statics[k + 1]) == PyFloat(Get(Lookup(p.members, "birth").value.members, BirthKeys[k], JNum(0.0)))
    ensures r.Success? ==> !HasKey(p.members, "gestational_age_weeks") ==> r.value.statics[0] == 0.0
  {
    if !p.JObject? then Failure(AttributeError)
    else
      match GestationalAge(p.members)
      case Failure(e) => Failure(e)
      case Success(ga) =>
        match Subscript(p, "birth")
        case Failure(e) => Failure(e)
        case Success(birth) =>
          if !birth.JObject? then Failure(AttributeError)
          else
            match BirthFloats(birth.members, BirthKeys)
            case Failure(e) => Failure(e)
            case Success(fs) =>
              Success(Basic(id, Get(p.members, "name", JNull), Get(p.members, "gender", JNull), [ga] + fs))
  }

  /** `rec.get("risk_level", paciente.get("risk_level", "Unknown"))`. */
  function Risk(patient: seq<Member>, rec: seq<Member>): (r: Json)
    ensures HasKey(rec, "risk_level") ==> r == Lookup(rec, "risk_level").value
    ensures !HasKey(rec, "risk_level") && HasKey(patient, "risk_level") ==> r == Lookup(patient, "risk_level").value
    ensures !HasKey(rec, "risk_level") && !HasKey(patient, "risk_level") ==> r == JStr("Unknown")
  {
    Get(rec, "risk_level", Get(patient, "risk_level", JStr("Unknown")))
  }

  /** One `linha`; a record that is not a dict has no `get`. */
  function RecordRow(basic: Basic, patient: seq<Member>, rec: Json): (r: Result<TrainRow, PyError>)
    ensures r.Failure? <==> !rec.JObject?
    ensures r.Failure? ==> r.error == AttributeError
  {
    if !rec.JObject? then Failure(AttributeError)
    else Success(TrainRow(basic, Get(rec.members, "date", JNull), Vitals(rec.members), Risk(patient, rec.members)))
  }

  /** The outcome of building a `linha` for each record in turn. */
  function RecordResults(basic: Basic, patient: seq<Member>, recs: seq<Json>): (r: seq<Result<TrainRow, PyError>>)
    ensures |r| == |recs| && forall j :: 0 <= j < |recs| ==> r[j] == RecordRow(basic, patient, recs[j])
  {
    seq(|recs|, j requires 0 <= j < |recs| => RecordRow(basic, patient, recs[j]))
  }

  /** What `for rec in paciente.get("records", [])` visits. */
  function Records(p: Json): Result<seq<Json>, PyError>
    requires p.JObject?
  {
    Iterate(Get(p.members, "records", JArray([])))
  }

  /** The rows one patient contributes. */
  function PatientRows(m: Member): Result<seq<TrainRow>, PyError> {
    match TrainBasic(m.key, m.value)
    case Failure(e) => Failure(e)
    case Success(basic) =>
      match Records(m.value)
      case Failure(e) => Failure(e)
      case Success(recs) => Collect(RecordResults(basic, m.value.members, recs))
  }

  function PatientResults(ms: seq<Member>): (r: seq<Result<seq<TrainRow>, PyError>>)
    ensures |r| == |ms| && forall k :: 0 <= k < |ms| ==> r[k] == PatientRows(ms[k])
  {
    seq(|ms|, k requires 0 <= k < |ms| => PatientRows(ms[k]))
  }

  /** `rows` after the loop over `data.items()`; only a dict has `items`. */
  function Flatten(data: Json): Result<seq<TrainRow>, PyError> {
    if data.JObject? then Concat(PatientResults(data.members)) else Failure(AttributeError)
  }

  /** The inner loop: append one `linha` per record to `rows`, stopping at
      the first record that raises. */
  method AppendRecordRows(rows: seq<TrainRow>, basic: Basic, patient: seq<Member>, recs: seq<Json>)
    returns (r: Result<seq<TrainRow>, PyError>)
    ensures var all := Collect(RecordResults(basic, patient, recs));
      r == if all.Success? then Success(rows + all.value) else Failure(all.error)
  {
    ghost var records := RecordResults(basic, patient, recs);
    var acc := rows;
    var j := 0;
    while j < |recs|
      invariant 0 <= j <= |recs|
      invariant Collect(records[..j]).Success?
      invariant acc == rows + Collect(records[..j]).value
    {
      var linha := RecordRow(basic, patient, recs[j]);
      if linha.Failure? {
        assert records[j] == linha;
        CollectFailsAt(records, j);
        return Failure(linha.error);
      }
      CollectStep(records, j);
      acc := acc + [linha.value];
      j := j + 1;
    }
    assert records[..j] == records;
    r := Success(acc);
  }

  /** The script's nested loop: for each patient, build `info_basica`, then
      append one `linha` per record to `rows`. */
  method FlattenRows(data: Json) returns (r: Result<seq<TrainRow>, PyError>)
    ensures r == Flatten(data)
  {
    if !data.JObject? {
      return Failure(AttributeError);
    }
    var ms := data.members;
    ghost var patients := PatientResults(ms);
    var rows: seq<TrainRow> := [];
    var i := 0;
    while i < |ms|
      invariant 0 <= i <= |ms|
      invariant Concat(patients[..i]) == Success(rows)
    {
      var basic := TrainBasic(ms[i].key, ms[i].value);
      if basic.Failure? {
        assert patients[i] == Failure(basic.error);
        ConcatFailsAt(patients, i);
        return Failure(basic.error);
      }
      var recs := Records(ms[i].value);
      if recs.Failure? {
        assert patients[i] == Failure(recs.error);
        ConcatFailsAt(patients, i);
        return Failure(recs.error);
      }
      var next := AppendRecordRows(rows, basic.value, ms[i].value.members, recs.value);
      assert patients[i] == Collect(RecordResults(basic.value, ms[i].value.members, recs.value));
      if next.Failure? {
        ConcatFailsAt(patients, i);
        return Failure(next.error);
      }
      ConcatStep(patients, i);
      rows := next.value;
      i := i + 1;
    }
    assert patients[..i] == patients;
    r := Success(rows);
  }

  // ---------------------------------------------------------------------
  // What the flattening yields

  /** How many records a patient's `for rec in ...` visits. */
  function RecordCount(p: Json): nat {
    if p.JObject? then
      match Records(p)
      case Success(recs) => |recs|
      case Failure(_) => 0
    else 0
  }

  /** A patient contributes one row per record, in record order, each
      carrying the patient's key and static fields and the record's date and
      resolved risk; a patient without "records" contributes none. */
  lemma PatientRowsShape(m: Member)
    requires PatientRows(m).Success?
    ensures var rows := PatientRows(m).value;
      var basic := TrainBasic(m.key, m.value).value;
      var recs := Records(m.value).value;
      |rows| == RecordCount(m.value) == |recs| &&
      (!HasKey(m.value.members, "records") ==> rows == []) &&
      forall j :: 0 <= j < |rows| ==>
        recs[j].JObject? && rows[j].basic == basic && rows[j].basic.babyId == m.key &&
        rows[j].date == Get(recs[j].members, "date", JNull) &&
        rows[j].vitals == Vitals(recs[j].members) &&
        rows[j].riskLevel == Risk(m.value.members, recs[j].members)
  {
    var basic := TrainBasic(m.key, m.value).value;
    var recs := Records(m.value).value;
    var rows := PatientRows(m).value;
    forall j | 0 <= j < |rows| ensures recs[j].JObject? && rows[j] == RecordRow(basic, m.value.members, recs[j]).value {
      assert RecordResults(basic, m.value.members, recs)[j] == Success(rows[j]);
    }
  }

  function RecordCounts(ms: seq<Member>): (r: seq<nat>)
    ensures |r| == |ms| && forall k :: 0 <= k < |ms| ==> r[k] == RecordCount(ms[k].value)
  {
    seq(|ms|, k requires 0 <= k < |ms| => RecordCount(ms[k].value))
  }

  /** Flattening yields exactly one row per record of each patient. */
  lemma FlattenShape(data: Json)
    requires Flatten(data).Success?
    ensures data.JObject?
    ensures |Flatten(data).value| == Seqs.Sum(RecordCounts(data.members))
  {
    var ms := data.members;
    var patients := PatientResults(ms);
    forall k | 0 <= k < |ms| ensures Lengths(patients)[k] == RecordCounts(ms)[k] {
      PatientRowsShape(ms[k]);
    }
    assert Lengths(patients) == RecordCounts(ms);
  }

  /** Every row belongs to one of the patients, under that patient's key. */
  lemma FlattenRowsFromPatients(data: Json)
    requires Flatten(data).Success?
    ensures data.JObject?
    ensures forall i :: 0 <= i < |Flatten(data).value| ==>
      exists k :: 0 <= k < |data.members| && Flatten(data).value[i].basic == TrainBasic(data.members[k].key, data.members[k].value).value
  {
    var ms := data.members;
    var patients := PatientResults(ms);
    ConcatFrom(patients);
    var rows := Flatten(data).value;
    forall i | 0 <= i < |rows|
      ensures exists k :: 0 <= k < |ms| && rows[i].basic == TrainBasic(ms[k].key, ms[k].value).value
    {
      var k :| 0 <= k < |patients| && rows[i] in patients[k].value;
      PatientRowsShape(ms[k]);
    }
  }

  // ---------------------------------------------------------------------
  // dropna and encoding

  /** How many rows resolve their risk to null. */
  function NullRisks(rows: seq<TrainRow>): nat {
    if rows == [] then 0
    else NullRisks(rows[..|rows| - 1]) + if rows[|rows| - 1].riskLevel == JNull then 1 else 0
  }

  /** `df.dropna(subset=["risk_level"])` on rows that have that column: every
      row with a non-null risk is kept as often as it occurs, every other row
      is dropped, and the number dropped is the number of null risks. */
  function Labelled(rows: seq<TrainRow>): (r: seq<TrainRow>)
    ensures |r| + NullRisks(rows) == |rows|
    ensures forall x :: x in r <==> x in rows && x.riskLevel != JNull
  {
    if rows == [] then []
    else
      var p, x := rows[..|rows| - 1], rows[|rows| - 1];
      assert forall y :: y in rows <==> y in p || y == x by {
        assert rows == p + [x];
      }
      Labelled(p) + if x.riskLevel == JNull then [] else [x]
  }

  predicate HasRisk(row: TrainRow) {
    row.riskLevel != JNull
  }

  /** `dropna` is the in-order filter of the rows with a risk. */
  lemma {:induction false} LabelledFilters(rows: seq<TrainRow>)
    ensures Labelled(rows) == Filter(rows, HasRisk)
    decreases |rows|
  {
    if rows != [] {
      LabelledFilters(rows[..|rows| - 1]);
    }
  }

  /** `dropna` keeps a labelled row as many times as it occurs, and no copy of an unlabelled one. */
  lemma LabelledOcc(rows: seq<TrainRow>, x: TrainRow)
    ensures Occ(x, Labelled(rows)) == if x.riskLevel == JNull then 0 else Occ(x, rows)
  {
    LabelledFilters(rows);
    FilterOcc(rows, HasRisk, x);
  }

  /** `dropna` works row by row: dropping from a concatenation is
      concatenating the drops, so input order is kept. */
  lemma LabelledAppend(a: seq<TrainRow>, b: seq<TrainRow>)
    ensures Labelled(a + b) == Labelled(a) + Labelled(b)
  {
    LabelledFilters(a);
    LabelledFilters(b);
    LabelledFilters(a + b);
    FilterAppend(a, b, HasRisk);
  }

  /** Rows whose risk resolves to a non-null value all survive `dropna`, in order. */
  lemma {:induction false} LabelledKeepsAll(rows: seq<TrainRow>)
    requires forall i :: 0 <= i < |rows| ==> rows[i].riskLevel != JNull
    ensures Labelled(rows) == rows
    decreases |rows|
  {
    if rows != [] {
      LabelledKeepsAll(rows[..|rows| - 1]);
      Seqs.Snoc(rows);
    }
  }

  function Risks(rows: seq<TrainRow>): (r: seq<Json>)
    ensures |r| == |rows| && forall i :: 0 <= i < |rows| ==> r[i] == rows[i].riskLevel
  {
    seq(|rows|, i requires 0 <= i < |rows| => rows[i].riskLevel)
  }

  function Genders(rows: seq<TrainRow>): (r: seq<Json>)
    ensures |r| == |rows| && forall i :: 0 <= i < |rows| ==> r[i] == rows[i].basic.gender
  {
    seq(|rows|, i requires 0 <= i < |rows| => rows[i].basic.gender)
  }

  /** A row of `X = df[features]`. */
  function FeatureVector(row: TrainRow, genderCode: nat): seq<real> {
    row.basic.statics + row.vitals + [genderCode as real]
  }

  function Vectors(rows: seq<TrainRow>, codes: seq<nat>): (r: seq<seq<real>>)
    requires |codes| == |rows|
    ensures |r| == |rows| && forall i :: 0 <= i < |rows| ==> r[i] == FeatureVector(rows[i], codes[i])
  {
    seq(|rows|, i requires 0 <= i < |rows| => FeatureVector(rows[i], codes[i]))
  }

  /** `X`, `y`, and the `target_names` passed to the report. */
  datatype TrainingSet = TrainingSet(x: seq<seq<real>>, y: seq<nat>, targetNames: seq<Json>)

  /** Lines 63-107 as written: one encoder fitted on the risk labels and then
      refitted on the genders, whose `classes_` name the report's classes. An
      empty frame has no "risk_level" column for `dropna`. */
  function PrepareAsWritten(rows: seq<TrainRow>): Result<TrainingSet, PyError> {
    if rows == [] then Failure(KeyError("risk_level"))
    else
      var kept := Labelled(rows);
      match ClassesOf(Risks(kept))
      case Failure(e) => Failure(e)
      case Success(riskClasses) =>
        match ClassesOf(Genders(kept))
        case Failure(e) => Failure(e)
        case Success(genderClasses) =>
          Success(TrainingSet(Vectors(kept, Codes(Genders(kept), genderClasses)),
                              Codes(Risks(kept), riskClasses), genderClasses))
  }

  /** The same preparation with the report naming the risk classes, which is
      what `target_names` is for. */
  function Prepare(rows: seq<TrainRow>): Result<TrainingSet, PyError> {
    if rows == [] then Failure(KeyError("risk_level"))
    else
      var kept := Labelled(rows);
      match ClassesOf(Risks(kept))
      case Failure(e) => Failure(e)
      case Success(riskClasses) =>
        match ClassesOf(Genders(kept))
        case Failure(e) => Failure(e)
        case Success(genderClasses) =>
          Success(TrainingSet(Vectors(kept, Codes(Genders(kept), genderClasses)),
                              Codes(Risks(kept), riskClasses), riskClasses))
  }

  /** The script's preprocessing with its single, shared `label_encoder`. */
  method Preprocess(rows: seq<TrainRow>) returns (r: Result<TrainingSet, PyError>)
    ensures r == PrepareAsWritten(rows)
  {
    if rows == [] {
      return Failure(KeyError("risk_level"));
    }
    var kept := Labelled(rows);
    var encoder := new LabelEncoder();
    var riskCodes := encoder.FitTransform(Risks(kept));
    if riskCodes.Failure? {
      return Failure(riskCodes.error);
    }
    var genderCodes := encoder.FitTransform(Genders(kept));
    if genderCodes.Failure? {
      return Failure(genderCodes.error);
    }
    r := Success(TrainingSet(Vectors(kept, genderCodes.value), riskCodes.value, encoder.classes));
  }

  /** As written, the report's class names are the gender classes, not the risk classes. */
  lemma TargetNamesAreGenders(rows: seq<TrainRow>)
    requires PrepareAsWritten(rows).Success?
    ensures PrepareAsWritten(rows).value.targetNames == ClassesOf(Genders(Labelled(rows))).value
    ensures PrepareAsWritten(rows).value.y == Prepare(rows).value.y
  {
  }

  /** The corrected preparation: every target code names its own row's risk
      label, and every kept row is labelled. */
  lemma PrepareDecodes(rows: seq<TrainRow>)
    requires Prepare(rows).Success?
    ensures var t := Prepare(rows).value;
      var kept := Labelled(rows);
      |t.y| == |t.x| == |kept| &&
      forall i :: 0 <= i < |kept| ==>
        t.y[i] < |t.targetNames| && t.targetNames[t.y[i]] == kept[i].riskLevel && kept[i].riskLevel != JNull
  {
    var kept := Labelled(rows);
    forall i | 0 <= i < |kept| ensures kept[i].riskLevel != JNull {
      assert kept[i] in kept;
    }
  }

  /** The feature matrix holds each kept row's features with its own gender code. */
  lemma PrepareFeatures(rows: seq<TrainRow>)
    requires Prepare(rows).Success?
    ensures var kept := Labelled(rows);
      var genders := Genders(kept);
      ClassesOf(genders).Success? &&
      Prepare(rows).value.x == Vectors(kept, Codes(genders, ClassesOf(genders).value))
  {
  }

  /** Every feature vector has one value per feature name, and the gender code is the last. */
  lemma FeatureVectorShape(row: TrainRow, code: nat)
    requires |row.basic.statics| == 4 && |row.vitals| == |VitalColumns|
    ensures |FeatureVector(row, code)| == |Features| == 18
    ensures Features[|Features| - 1] == "gender_encoded" && FeatureVector(row, code)[17] == code as real
    ensures Features[4..17] == VitalColumns && FeatureVector(row, code)[4..17] == row.vitals
  {
    assert FeatureVector(row, code)[4..17] == row.vitals;
  }
}
