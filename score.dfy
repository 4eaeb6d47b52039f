/** The scoring script ia/main.py: the same patient/record flattening as
    training, but with `safe_float` on the static fields and direct
    `paciente["birth"][key]` indexing, then the fixed gender map, the model's
    prediction (a parameter here) and the fixed decode table. */
module Score {
  import opened Wrappers
  import opened Values
  import opened Numbers
  import opened Readings
  import opened Results

  /** The 18 model inputs, in column order. */
  const Features: seq<string> := [
    "gestational_age_weeks", "birth_weight_kg", "birth_length_cm",
    "birth_head_circumference_cm", "age_days", "weight_kg", "length_cm",
    "head_circumference_cm", "temperature_c", "heart_rate_bpm",
    "respiratory_rate_bpm", "oxygen_saturation", "feeding_frequency_per_day",
    "urine_output_count", "stool_count", "jaundice_level_mg_dl", "apgar_score",
    "gender_encoded"
  ]

  /** One `linha`: the patient's basic info and the record's date and readings. */
  datatype ScoreRow = ScoreRow(basic: Basic, date: Json, vitals: seq<real>)

  /** The patient is a dict whose "birth" is a dict too. */
  predicate HasBirthDict(p: Json) {
    p.JObject? && HasKey(p.members, "birth") && Lookup(p.members, "birth").value.JObject?
  }

  function BirthMembers(p: Json): seq<Member>
    requires HasBirthDict(p)
  {
    Lookup(p.members, "birth").value.members
  }

  /** `safe_float(paciente["birth"][key])`: the subscripts raise, the conversion never does. */
  function BirthReading(p: Json, key: string): (r: Result<real, PyError>)
    ensures r.Success? <==> HasBirthDict(p) && HasKey(BirthMembers(p), key)
    ensures r.Success? ==> r.value == SafeFloat(Lookup(BirthMembers(p), key).value)
    ensures HasBirthDict(p) && r.Failure? ==> r == Failure(KeyError(key))
  {
    match Subscript(p, "birth")
    case Failure(e) => Failure(e)
    case Success(birth) =>
      match Subscript(birth, key)
      case Failure(e) => Failure(e)
      case Success(v) => Success(SafeFloat(v))
  }

  function BirthReadings(p: Json): (r: seq<Result<real, PyError>>)
    ensures |r| == |BirthKeys| && forall k :: 0 <= k < |BirthKeys| ==> r[k] == BirthReading(p, BirthKeys[k])
  {
    seq(|BirthKeys|, k requires 0 <= k < |BirthKeys| => BirthReading(p, BirthKeys[k]))
  }

  /** The three `safe_float(paciente["birth"][key])` of a dict patient, in key
      order, or the exception of the first subscript that raises. */
  function BirthStatics(p: Json): (r: Result<seq<real>, PyError>)
    requires p.JObject?
    ensures !HasKey(p.members, "birth") ==> r == Failure(KeyError("birth"))
    ensures r.Success? <==>
              HasBirthDict(p) && forall k :: 0 <= k < |BirthKeys| ==> HasKey(BirthMembers(p), BirthKeys[k])
    ensures r.Success? ==>
              |r.value| == |BirthKeys| &&
              forall k :: 0 <= k < |BirthKeys| ==> r.value[k] == SafeFloat(Lookup(BirthMembers(p), BirthKeys[k]).value)
    ensures HasKey(p.members, "birth") && !HasBirthDict(p) ==> r == Failure(TypeError)
    ensures HasBirthDict(p) && r.Failure? ==> FirstMissingBirthKey(p, r.error)
  {
    var r := Collect(BirthReadings(p));
    if HasBirthDict(p) && r.Failure? then
      BirthReadingsFail(p);
      r
    else r
  }

  /** `info_basica` for one patient; only the `birth` subscripts can raise once
      the patient is a dict. */
  function ScoreBasic(id: string, p: Json): (r: Result<Basic, PyError>)
    ensures !p.JObject? ==> r == Failure(AttributeError)
    ensures p.JObject? && !HasKey(p.members, "birth") ==> r == Failure(KeyError("birth"))
    ensures r.Success? ==> p.JObject? && r.value.babyId == id && |r.value.statics| == 4
    ensures r.Success? ==> r.value.name == Get(p.members, "name", JNull) && r.value.gender == Get(p.members, "gender", JNull)
    ensures r.Success? ==> r.value.statics[0] == SafeFloat(Get(p.members, "gestational_age_weeks", JNull))
    ensures r.Success? <==>
              HasBirthDict(p) && forall k :: 0 <= k < |BirthKeys| ==> HasKey(BirthMembers(p), BirthKeys[k])
    ensures r.Success? ==>
              forall k :: 0 <= k < |BirthKeys| ==>
                r.value.statics[k + 1] == SafeFloat(Lookup(BirthMembers(p), BirthKeys[k]).value)
    ensures (p.JObject? && HasKey(p.members, "birth") && !HasBirthDict(p)) ==> r == Failure(TypeError)
    ensures HasBirthDict(p) && r.Failure? ==> FirstMissingBirthKey(p, r.error)
  {
    if !p.JObject? then Failure(AttributeError)
    else
      match BirthStatics(p)
      case Failure(e) => Failure(e)
      case Success(fs) =>
        Success(Basic(id, Get(p.members, "name", JNull), Get(p.members, "gender", JNull),
                      [SafeFloat(Get(p.members, "gestational_age_weeks", JNull))] + fs))
  }

  /** `e` is the KeyError of the first birth key the birth dict lacks. */
  predicate FirstMissingBirthKey(p: Json, e: PyError)
    requires HasBirthDict(p)
  {
    exists k :: 0 <= k < |BirthKeys| && e == KeyError(BirthKeys[k]) &&
      !HasKey(BirthMembers(p), BirthKeys[k]) &&
      forall j :: 0 <= j < k ==> HasKey(BirthMembers(p), BirthKeys[j])
  }

  lemma BirthReadingsFail(p: Json)
    requires HasBirthDict(p) && Collect(BirthReadings(p)).Failure?
    ensures FirstMissingBirthKey(p, Collect(BirthReadings(p)).error)
  {
    var rs := BirthReadings(p);
    var k :| 0 <= k < |rs| && rs[k] == Failure(Collect(rs).error) && forall j :: 0 <= j < k ==> rs[j].Success?;
    assert rs[k] == BirthReading(p, BirthKeys[k]);
    assert forall j :: 0 <= j < k ==> BirthReading(p, BirthKeys[j]).Success?;
  }

  /** One `linha`; a record that is not a dict has no `get`. */
  function RecordRow(basic: Basic, rec: Json): (r: Result<ScoreRow, PyError>)
    ensures r.Failure? <==> !rec.JObject?
    ensures r.Failure? ==> r.error == AttributeError
  {
    if !rec.JObject? then Failure(AttributeError)
    else Success(ScoreRow(basic, Get(rec.members, "date", JNull), Vitals(rec.members)))
  }

  function RecordResults(basic: Basic, recs: seq<Json>): (r: seq<Result<ScoreRow, PyError>>)
    ensures |r| == |recs| && forall j :: 0 <= j < |recs| ==> r[j] == RecordRow(basic, recs[j])
  {
    seq(|recs|, j requires 0 <= j < |recs| => RecordRow(basic, recs[j]))
  }

  /** What `for rec in paciente.get("records", [])` visits. */
  function Records(p: Json): Result<seq<Json>, PyError>
    requires p.JObject?
  {
    Iterate(Get(p.members, "records", JArray([])))
  }

  /** The rows one patient contributes. */
  function PatientRows(m: Member): Result<seq<ScoreRow>, PyError> {
    match ScoreBasic(m.key, m.value)
    case Failure(e) => Failure(e)
    case Success(basic) =>
      match Records(m.value)
      case Failure(e) => Failure(e)
      case Success(recs) => Collect(RecordResults(basic, recs))
  }

  function PatientResults(ms: seq<Member>): (r: seq<Result<seq<ScoreRow>, PyError>>)
    ensures |r| == |ms| && forall k :: 0 <= k < |ms| ==> r[k] == PatientRows(ms[k])
  {
    seq(|ms|, k requires 0 <= k < |ms| => PatientRows(ms[k]))
  }

  /** `rows` after the loop over `data.items()`. */
  function Flatten(data: Json): Result<seq<ScoreRow>, PyError> {
    if data.JObject? then Concat(PatientResults(data.members)) else Failure(AttributeError)
  }

  /** The inner loop: append one `linha` per record to `rows`. */
  method AppendRecordRows(rows: seq<ScoreRow>, basic: Basic, recs: seq<Json>)
    returns (r: Result<seq<ScoreRow>, PyError>)
    ensures var all := Collect(RecordResults(basic, recs));
      r == if all.Success? then Success(rows + all.value) else Failure(all.error)
  {
    ghost var records := RecordResults(basic, recs);
    var acc := rows;
    var j := 0;
    while j < |recs|
      invariant 0 <= j <= |recs|
      invariant Collect(records[..j]).Success?
      invariant acc == rows + Collect(records[..j]).value
    {
      var linha := RecordRow(basic, recs[j]);
      if linha.Failure? {
        assert records[j] == linha;
        CollectFailsAt(records, j);
        return Failure(linha.error);
      }
      CollectStep(records, j);
      acc := acc + [linha.value];
      j := j + 1;
    }
    assert records[..j] == records;
    r := Success(acc);
  }

  /** The script's nested loop over patients and their records. */
  method FlattenRows(data: Json) returns (r: Result<seq<ScoreRow>, PyError>)
    ensures r == Flatten(data)
  {
    if !data.JObject? {
      return Failure(AttributeError);
    }
    var ms := data.members;
    ghost var patients := PatientResults(ms);
    var rows: seq<ScoreRow> := [];
    var i := 0;
    while i < |ms|
      invariant 0 <= i <= |ms|
      invariant Concat(patients[..i]) == Success(rows)
    {
      var basic := ScoreBasic(ms[i].key, ms[i].value);
      if basic.Failure? {
        assert patients[i] == Failure(basic.error);
        ConcatFailsAt(patients, i);
        return Failure(basic.error);
      }
      var recs := Records(ms[i].value);
      if recs.Failure? {
        assert patients[i] == Failure(recs.error);
        ConcatFailsAt(patients, i);
        return Failure(recs.error);
      }
      var next := AppendRecordRows(rows, basic.value, recs.value);
      assert patients[i] == Collect(RecordResults(basic.value, recs.value));
      if next.Failure? {
        ConcatFailsAt(patients, i);
        return Failure(next.error);
      }
      ConcatStep(patients, i);
      rows := next.value;
      i := i + 1;
    }
    assert patients[..i] == patients;
    r := Success(rows);
  }

  /** A patient contributes one row per record, in order, carrying the
      patient's key and the record's date unchanged. */
  lemma PatientRowsShape(m: Member)
    requires PatientRows(m).Success?
    ensures var rows := PatientRows(m).value;
      var basic := ScoreBasic(m.key, m.value).value;
      var recs := Records(m.value).value;
      |rows| == |recs| &&
      forall j :: 0 <= j < |rows| ==>
        recs[j].JObject? && rows[j].basic == basic && rows[j].basic.babyId == m.key &&
        rows[j].date == Get(recs[j].members, "date", JNull) &&
        rows[j].vitals == Vitals(recs[j].members)
  {
    var basic := ScoreBasic(m.key, m.value).value;
    var recs := Records(m.value).value;
    var rows := PatientRows(m).value;
    forall j | 0 <= j < |rows| ensures recs[j].JObject? && rows[j] == RecordRow(basic, recs[j]).value {
      assert RecordResults(basic, recs)[j] == Success(rows[j]);
    }
  }

  // ---------------------------------------------------------------------
  // Encoding, prediction and decoding

  /** `df["gender"].map({"Male": 1, "Female": 0}).fillna(0)`. */
  function GenderEncoded(g: Json): (code: nat)
    ensures code == 1 <==> g == JStr("Male")
    ensures code == 0 <==> g != JStr("Male")
  {
    if g == JStr("Male") then 1 else 0
  }

  /** `label_map`, with a code outside the table decoding to a missing label. */
  function LabelMap(code: int): (r: Option<Json>)
    ensures r.Some? <==> 0 <= code <= 3
    ensures r.Some? ==> r.value in [JStr("Low"), JStr("Medium"), JStr("High"), JStr("Unknown")]
    ensures code == 0 ==> r == Some(JStr("Low"))
    ensures code == 1 ==> r == Some(JStr("Medium"))
    ensures code == 2 ==> r == Some(JStr("High"))
    ensures code == 3 ==> r == Some(JStr("Unknown"))
  {
    if code == 0 then Some(JStr("Low"))
    else if code == 1 then Some(JStr("Medium"))
    else if code == 2 then Some(JStr("High"))
    else if code == 3 then Some(JStr("Unknown"))
    else None
  }

  /** An output record: the flattened row plus the three columns the script adds. */
  datatype Scored = Scored(row: ScoreRow, genderEncoded: nat, predictedCode: int, predictedLabel: Option<Json>)

  /** A row of `X = df[features]`. */
  function FeatureVector(row: ScoreRow, genderCode: nat): seq<real> {
    row.basic.statics + row.vitals + [genderCode as real]
  }

  /** Lines 63-100, for a given gender encoding, classifier and decode table.
      An empty frame has no "gender" column. */
  function ScoreAll(rows: seq<ScoreRow>, encode: Json -> nat, predict: seq<real> -> int,
                    decode: int -> Option<Json>): (r: Result<seq<Scored>, PyError>)
    ensures rows == [] <==> r == Failure(KeyError("gender"))
    ensures r.Success? ==> |r.value| == |rows|
  {
    if rows == [] then Failure(KeyError("gender"))
    else
      Success(seq(|rows|, i requires 0 <= i < |rows| =>
        var code := encode(rows[i].basic.gender);
        var predicted := predict(FeatureVector(rows[i], code));
        Scored(rows[i], code, predicted, decode(predicted))))
  }

  /** The script as written: the fixed gender map and the fixed decode table. */
  function ScoreAsWritten(rows: seq<ScoreRow>, predict: seq<real> -> int): Result<seq<Scored>, PyError> {
    ScoreAll(rows, GenderEncoded, predict, LabelMap)
  }

  /** Every output row keeps its input row, in order, and its label is the
      decoded prediction on that row's own features. */
  lemma ScoredRows(rows: seq<ScoreRow>, predict: seq<real> -> int)
    requires rows != []
    ensures var out := ScoreAsWritten(rows, predict);
      out.Success? && |out.value| == |rows| &&
      forall i :: 0 <= i < |rows| ==>
        out.value[i].row == rows[i] &&
        out.value[i].genderEncoded == (if rows[i].basic.gender == JStr("Male") then 1 else 0) &&
        out.value[i].predictedLabel == LabelMap(predict(FeatureVector(rows[i], out.value[i].genderEncoded)))
  {
    var out := ScoreAsWritten(rows, predict).value;
    forall i | 0 <= i < |rows|
      ensures out[i] == Scored(rows[i], GenderEncoded(rows[i].basic.gender),
        predict(FeatureVector(rows[i], GenderEncoded(rows[i].basic.gender))),
        LabelMap(predict(FeatureVector(rows[i], GenderEncoded(rows[i].basic.gender)))))
    {
    }
  }
}
