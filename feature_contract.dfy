/** What ia/main.py assumes about ia/train.py: the same feature columns, the
    same rows, the same gender encoding and a decode table matching the
    training encoder. The first two hold; the last two hold only under
    conditions, and the corrected encoders below are the ones the scoring
    step would need. */
module FeatureContract {
  import opened Wrappers
  import opened Values
  import opened Numbers
  import opened Strings
  import opened Seqs
  import opened Readings
  import opened Results
  import opened LabelEncoding
  import Train
  import Score

  /** The two scripts' feature lists are the same list: 18 distinct names,
      the gender code last. */
  lemma FeatureListsAgree()
    ensures Train.Features == Score.Features
    ensures |Train.Features| == 18 && NoDup(Train.Features)
    ensures Train.Features[17] == "gender_encoded"
  {
  }

  // ---------------------------------------------------------------------
  // Flattening

  /** A training row and a scoring row carry the same patient fields, date and readings. */
  predicate Agree(t: Train.TrainRow, s: Score.ScoreRow) {
    t.basic == s.basic && t.date == s.date && t.vitals == s.vitals
  }

  /** Where both scripts read a patient's basic info without raising, they
      read the same numbers: a number `float` accepts is what `safe_float`
      returns, and a missing gestational age is 0.0 for both. */
  lemma BasicAgree(id: string, p: Json)
    requires Train.TrainBasic(id, p).Success? && Score.ScoreBasic(id, p).Success?
    ensures Train.TrainBasic(id, p).value == Score.ScoreBasic(id, p).value
  {
    var t, s := Train.TrainBasic(id, p).value, Score.ScoreBasic(id, p).value;
    var ms := p.members;
    var birth := Lookup(ms, "birth").value;
    var fs := Train.BirthFloats(birth.members, BirthKeys).value;
    var gs := Collect(Score.BirthReadings(p)).value;
    assert t.statics == [t.statics[0]] + fs;
    assert s.statics == [s.statics[0]] + gs;
    forall k | 0 <= k < 3 ensures fs[k] == gs[k] {
      assert Score.BirthReadings(p)[k] == Success(gs[k]);
    }
    assert fs == gs;
  }

  /** Training is stricter than scoring about the static numbers: a stored
      gestational age that `float` rejects (text that is not a number, null,
      a list or a dict) makes training raise, while scoring reads it as 0.0
      and goes on, for any patient whose birth dict holds the three keys. */
  lemma StaticsStricterInTraining(id: string, p: Json)
    requires p.JObject? && HasKey(p.members, "gestational_age_weeks")
    requires PyFloat(Lookup(p.members, "gestational_age_weeks").value).Failure?
    requires HasKey(p.members, "birth") && Lookup(p.members, "birth").value.JObject?
    requires forall k :: 0 <= k < |BirthKeys| ==> HasKey(Lookup(p.members, "birth").value.members, BirthKeys[k])
    ensures Train.TrainBasic(id, p) == Failure(PyFloat(Lookup(p.members, "gestational_age_weeks").value).error)
    ensures Score.ScoreBasic(id, p).Success? && Score.ScoreBasic(id, p).value.statics[0] == 0.0
  {
  }

  lemma PatientAgree(m: Member)
    requires Train.PatientRows(m).Success? && Score.PatientRows(m).Success?
    ensures |Train.PatientRows(m).value| == |Score.PatientRows(m).value|
    ensures forall j :: 0 <= j < |Train.PatientRows(m).value| ==>
      Agree(Train.PatientRows(m).value[j], Score.PatientRows(m).value[j])
  {
    BasicAgree(m.key, m.value);
    Train.PatientRowsShape(m);
    Score.PatientRowsShape(m);
  }

  /** Where both scripts flatten the same document without raising, they
      produce the same number of rows, pairwise with the same patient
      fields, dates and readings: only the gender code and the label differ. */
  lemma FlattenAgree(data: Json)
    requires Train.Flatten(data).Success? && Score.Flatten(data).Success?
    ensures |Train.Flatten(data).value| == |Score.Flatten(data).value|
    ensures forall i :: 0 <= i < |Train.Flatten(data).value| ==>
      Agree(Train.Flatten(data).value[i], Score.Flatten(data).value[i])
  {
    var ms := data.members;
    var xs, ys := Train.PatientResults(ms), Score.PatientResults(ms);
    forall k | 0 <= k < |xs|
      ensures |xs[k].value| == |ys[k].value|
      ensures forall j :: 0 <= j < |xs[k].value| ==> Agree(xs[k].value[j], ys[k].value[j])
    {
      PatientAgree(ms[k]);
    }
    ConcatZip(xs, ys, Agree);
  }

  /** Rows that agree give the same 17 numeric features for the same gender code. */
  lemma FeatureVectorsAgree(t: Train.TrainRow, s: Score.ScoreRow, code: nat)
    requires Agree(t, s)
    ensures Train.FeatureVector(t, code) == Score.FeatureVector(s, code)
  {
  }

  // ---------------------------------------------------------------------
  // Gender encoding

  predicate MaleOrFemale(genders: seq<Json>) {
    forall i :: 0 <= i < |genders| ==> genders[i] == JStr("Male") || genders[i] == JStr("Female")
  }

  lemma FemaleBeforeMale()
    ensures StrictlySorted(["Female", "Male"])
  {
    assert LexLess("Female", "Male");
  }

  /** When every gender is "Male" or "Female" and "Female" occurs, the
      training encoder's codes are exactly the scoring script's fixed map. */
  lemma GenderCodesAgree(genders: seq<Json>)
    requires MaleOrFemale(genders) && JStr("Female") in genders
    ensures ClassesOf(genders).Success?
    ensures forall i :: 0 <= i < |genders| ==>
      Codes(genders, ClassesOf(genders).value)[i] == Score.GenderEncoded(genders[i])
  {
    var ss := SortedDistinct(StringsOf(genders));
    assert JNull !in genders;
    if JStr("Male") in genders {
      FemaleBeforeMale();
      SortedUnique(ss, ["Female", "Male"]);
    } else {
      SortedUnique(ss, ["Female"]);
    }
    var classes := ClassesOf(genders).value;
    assert classes == JStrs(ss);
  }

  /** As written, an all-"Male" training set encodes "Male" as 0, while
      scoring encodes it as 1. */
  lemma AllMaleDisagrees()
    ensures var genders := [JStr("Male")];
      ClassesOf(genders).Success? &&
      Codes(genders, ClassesOf(genders).value)[0] == 0 &&
      Score.GenderEncoded(genders[0]) == 1
  {
    var genders := [JStr("Male")];
    var ss := SortedDistinct(StringsOf(genders));
    assert forall x :: x in ss <==> x == "Male";
    SortedUnique(ss, ["Male"]);
    assert ClassesOf(genders).value == JStrs(ss);
  }

  /** The gender code that training's encoder gives, for scoring: the
      position among the training classes, and 0 (the script's fallback) for
      a gender training never saw. */
  function GenderCodeWith(classes: seq<Json>, g: Json): (code: nat)
    ensures g in classes ==> code < |classes| && classes[code] == g
    ensures g !in classes ==> code == 0
  {
    if g in classes then IndexOf(g, classes) else 0
  }

  /** Scoring with the training classes reproduces training's gender column. */
  lemma GenderCodeWithReproducesTraining(rows: seq<Train.TrainRow>)
    requires Train.Prepare(rows).Success?
    ensures var kept := Train.Labelled(rows);
      var classes := ClassesOf(Train.Genders(kept)).value;
      var x := Train.Prepare(rows).value.x;
      forall i :: 0 <= i < |kept| ==>
        |x[i]| == |kept[i].basic.statics| + |kept[i].vitals| + 1 &&
        x[i][|x[i]| - 1] == GenderCodeWith(classes, kept[i].basic.gender) as real
  {
    var kept := Train.Labelled(rows);
    var genders := Train.Genders(kept);
    Train.PrepareFeatures(rows);
    var classes := ClassesOf(genders).value;
    var codes := Codes(genders, classes);
    var x := Train.Prepare(rows).value.x;
    ClassesNoDup(genders);
    forall i | 0 <= i < |kept|
      ensures |x[i]| == |kept[i].basic.statics| + |kept[i].vitals| + 1
      ensures x[i][|x[i]| - 1] == GenderCodeWith(classes, kept[i].basic.gender) as real
    {
      assert x[i] == Train.FeatureVector(kept[i], codes[i]);
      assert genders[i] == kept[i].basic.gender && classes[codes[i]] == genders[i];
    }
  }

  // ---------------------------------------------------------------------
  // Decoding predictions

  lemma RiskOrder()
    ensures StrictlySorted(["High", "Low", "Medium"])
    ensures StrictlySorted(["High", "Low", "Medium", "Unknown"])
  {
    assert LexLess("High", "Low") && LexLess("High", "Medium") && LexLess("Low", "Medium");
    assert LexLess("High", "Unknown") && LexLess("Low", "Unknown") && LexLess("Medium", "Unknown");
  }

  predicate StandardRisks(risks: seq<Json>) {
    (forall i :: 0 <= i < |risks| ==>
      risks[i] in [JStr("Low"), JStr("Medium"), JStr("High"), JStr("Unknown")]) &&
    JStr("Low") in risks && JStr("Medium") in risks && JStr("High") in risks
  }

  function StandardNames(risks: seq<Json>): seq<string> {
    ["High", "Low", "Medium"] + if JStr("Unknown") in risks then ["Unknown"] else []
  }

  lemma StandardStrings(risks: seq<Json>)
    requires StandardRisks(risks)
    ensures forall y :: y in StringsOf(risks) <==> y in StandardNames(risks)
  {
    forall y | y in StringsOf(risks) ensures y in StandardNames(risks) {
      var i :| 0 <= i < |risks| && risks[i] == JStr(y);
    }
  }

  /** The classes of a training set labelled "Low", "Medium" and "High",
      possibly with "Unknown". */
  lemma StandardClasses(risks: seq<Json>)
    requires StandardRisks(risks)
    ensures ClassesOf(risks).Success?
    ensures ClassesOf(risks).value == JStrs(StandardNames(risks))
  {
    assert Encodable(risks) by {
      forall i | 0 <= i < |risks| ensures risks[i].JStr? {
        assert risks[i] in [JStr("Low"), JStr("Medium"), JStr("High"), JStr("Unknown")];
      }
    }
    assert JNull !in risks;
    var names := StandardNames(risks);
    assert StrictlySorted(names) by {
      RiskOrder();
      if JStr("Unknown") in risks {
        assert names == ["High", "Low", "Medium", "Unknown"];
      } else {
        assert names == ["High", "Low", "Medium"];
      }
    }
    StandardStrings(risks);
    SortedUnique(SortedDistinct(StringsOf(risks)), names);
  }

  /** As written, for a training set labelled "Low", "Medium" and "High"
      (with or without "Unknown"), the fixed table decodes each of those
      three labels' codes as a different label: the encoder numbers them
      High, Low, Medium. */
  lemma LabelMapMisreads(risks: seq<Json>)
    requires StandardRisks(risks)
    ensures ClassesOf(risks).Success?
    ensures var classes := ClassesOf(risks).value;
      Score.LabelMap(IndexOf(JStr("High"), classes)) == Some(JStr("Low")) &&
      Score.LabelMap(IndexOf(JStr("Low"), classes)) == Some(JStr("Medium")) &&
      Score.LabelMap(IndexOf(JStr("Medium"), classes)) == Some(JStr("High"))
  {
    StandardClasses(risks);
    var classes := ClassesOf(risks).value;
    ClassesNoDup(risks);
    assert classes[0] == JStr("High") && classes[1] == JStr("Low") && classes[2] == JStr("Medium");
    assert IndexOf(JStr("High"), classes) == 0;
    assert IndexOf(JStr("Low"), classes) == 1;
    assert IndexOf(JStr("Medium"), classes) == 2;
  }

  /** The label training's encoder gave a code: its class, and no label for
      a code outside the classes. */
  function DecodeWith(classes: seq<Json>, code: int): (r: Option<Json>)
    ensures r.Some? <==> 0 <= code < |classes|
    ensures r.Some? ==> r.value in classes
  {
    if 0 <= code < |classes| then Some(classes[code]) else None
  }

  /** Decoding with the training classes inverts the training encoding. */
  lemma DecodeRoundTrip(values: seq<Json>)
    requires ClassesOf(values).Success?
    ensures var classes := ClassesOf(values).value;
      forall i :: 0 <= i < |values| ==>
        DecodeWith(classes, Codes(values, classes)[i]) == Some(values[i])
  {
  }

  /** Scoring with the training encoders in place of the fixed tables. */
  function ScoreCorrected(rows: seq<Score.ScoreRow>, predict: seq<real> -> int,
                          genderClasses: seq<Json>, riskClasses: seq<Json>): Result<seq<Score.Scored>, PyError> {
    Score.ScoreAll(rows, g => GenderCodeWith(genderClasses, g), predict, c => DecodeWith(riskClasses, c))
  }

  /** With the corrected scoring, a prediction of the code training gave a
      label is decoded as that label. */
  lemma ScoreCorrectedDecodes(rows: seq<Score.ScoreRow>, predict: seq<real> -> int,
                              genderClasses: seq<Json>, riskClasses: seq<Json>, i: nat, risk: Json)
    requires i < |rows| && risk in riskClasses
    requires predict(Score.FeatureVector(rows[i], GenderCodeWith(genderClasses, rows[i].basic.gender))) == IndexOf(risk, riskClasses)
    ensures var out := ScoreCorrected(rows, predict, genderClasses, riskClasses);
      out.Success? && out.value[i].predictedLabel == Some(risk)
  {
    var out := ScoreCorrected(rows, predict, genderClasses, riskClasses).value;
    var code := GenderCodeWith(genderClasses, rows[i].basic.gender);
    assert out[i] == Score.Scored(rows[i], code, IndexOf(risk, riskClasses), DecodeWith(riskClasses, IndexOf(risk, riskClasses)));
  }
}
