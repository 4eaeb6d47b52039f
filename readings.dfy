/** The row shape that ia/train.py and ia/main.py share: a patient's basic
    info, and the per-record reading columns both copy out of a record, each
    through `safe_float`. */
module Readings {
  import opened Values
  import opened Numbers

  /** The keys both scripts read from `paciente["birth"]`, in order. */
  const BirthKeys: seq<string> := ["weight_kg", "length_cm", "head_circumference_cm"]

  /** `info_basica`: the patient key, name and gender as stored, and the four
      static numbers (gestational age, then the three birth measurements). */
  datatype Basic = Basic(babyId: string, name: Json, gender: Json, statics: seq<real>)

  /** The thirteen numeric record columns, in the order both scripts list them. */
  const VitalColumns: seq<string> := [
    "age_days", "weight_kg", "length_cm", "head_circumference_cm",
    "temperature_c", "heart_rate_bpm", "respiratory_rate_bpm",
    "oxygen_saturation", "feeding_frequency_per_day", "urine_output_count",
    "stool_count", "jaundice_level_mg_dl", "apgar_score"
  ]

  /** `safe_float(rec.get(column))` for every reading column of a record. */
  function Vitals(rec: seq<Member>): (r: seq<real>)
    ensures |r| == |VitalColumns|
    ensures forall k :: 0 <= k < |VitalColumns| ==> r[k] == SafeFloat(Get(rec, VitalColumns[k], JNull))
  {
    seq(|VitalColumns|, k requires 0 <= k < |VitalColumns| => SafeFloat(Get(rec, VitalColumns[k], JNull)))
  }

  /** A reading the record lacks, or holds as text that is not a number, reads as 0.0. */
  lemma VitalsDefault(rec: seq<Member>, k: nat)
    requires k < |VitalColumns|
    requires !HasKey(rec, VitalColumns[k]) || (Lookup(rec, VitalColumns[k]).value.JStr? && Parse(Lookup(rec, VitalColumns[k]).value.s).None?)
    ensures Vitals(rec)[k] == 0.0
  {
    SafeFloatDefaults(Get(rec, VitalColumns[k], JNull));
  }
}
