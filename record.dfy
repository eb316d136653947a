/** One submission of the input form: the 11 clinical fields, the record
    dictionary the app builds from them, the widget ranges, and the what-if
    variant that overrides cholesterol and resting blood pressure. */
module HeartRecord {

  datatype Sex = Female | Male {
    /** The option text of the select box. */
    function Label(): string {
      match this
      case Female => "Female"
      case Male => "Male"
    }
  }

  datatype ChestPain = TypicalAngina | AtypicalAngina | NonAnginalPain | Asymptomatic {
    function Label(): string {
      match this
      case TypicalAngina => "Typical Angina"
      case AtypicalAngina => "Atypical Angina"
      case NonAnginalPain => "Non-Anginal Pain"
      case Asymptomatic => "Asymptomatic"
    }
  }

  datatype YesNo = No | Yes {
    function Label(): string {
      match this
      case No => "No"
      case Yes => "Yes"
    }
  }

  datatype RestEcg = Normal | StTAbnormality | LeftVentricularHypertrophy {
    function Label(): string {
      match this
      case Normal => "Normal"
      case StTAbnormality => "ST-T abnormality"
      case LeftVentricularHypertrophy => "Left Ventricular Hypertrophy"
    }
  }

  datatype StSlope = Up | Flat | Down {
    function Label(): string {
      match this
      case Up => "Up"
      case Flat => "Flat"
      case Down => "Down"
    }
  }

  /** The widget values of one submission. `oldpeak` is the only
      fractional input. */
  datatype Record = Record(
    age: int,
    sex: Sex,
    chestPain: ChestPain,
    restingBp: int,
    cholesterol: int,
    fastingBs: YesNo,
    restEcg: RestEcg,
    maxHr: int,
    exerciseAngina: YesNo,
    oldpeak: real,
    slope: StSlope)

  /** A cell of a one-row pandas frame: a number or an object (string). */
  datatype Value = Int(i: int) | Real(x: real) | Text(s: string)

  /** The keys of the record dictionary, in insertion order (the spelling
      `cholestoral` follows the training data). */
  const FieldNames: seq<string> := [
    "age", "sex", "chest_pain_type", "resting_blood_pressure", "cholestoral",
    "fasting_blood_sugar", "rest_ecg", "Max_heart_rate", "exercise_induced_angina",
    "oldpeak", "slope"]

  /** Positions of the numeric keys in `FieldNames`; the other six hold text. */
  predicate IsNumericField(i: int) {
    i in {0, 3, 4, 7, 9}
  }

  /** The record dictionary as (key, value) pairs in insertion order. */
  function Fields(r: Record): (f: seq<(string, Value)>)
    ensures |f| == |FieldNames|
    ensures forall i :: 0 <= i < |f| ==> f[i].0 == FieldNames[i]
    ensures forall i :: 0 <= i < |f| ==> (IsNumericField(i) <==> !f[i].1.Text?)
  {
    [("age", Int(r.age)),
     ("sex", Text(r.sex.Label())),
     ("chest_pain_type", Text(r.chestPain.Label())),
     ("resting_blood_pressure", Int(r.restingBp)),
     ("cholestoral", Int(r.cholesterol)),
     ("fasting_blood_sugar", Text(r.fastingBs.Label())),
     ("rest_ecg", Text(r.restEcg.Label())),
     ("Max_heart_rate", Int(r.maxHr)),
     ("exercise_induced_angina", Text(r.exerciseAngina.Label())),
     ("oldpeak", Real(r.oldpeak)),
     ("slope", Text(r.slope.Label()))]
  }

  /** The dictionary loses nothing: two records with the same dictionary are
      the same record, so a saved history row determines its record. */
  lemma FieldsInjective(r1: Record, r2: Record)
    requires Fields(r1) == Fields(r2)
    ensures r1 == r2
  {
    assert Fields(r1)[1] == Fields(r2)[1];
    assert Fields(r1)[2] == Fields(r2)[2];
    assert Fields(r1)[5] == Fields(r2)[5];
    assert Fields(r1)[6] == Fields(r2)[6];
    assert Fields(r1)[8] == Fields(r2)[8];
    assert Fields(r1)[10] == Fields(r2)[10];
    assert Fields(r1)[0] == Fields(r2)[0];
    assert Fields(r1)[3] == Fields(r2)[3];
    assert Fields(r1)[4] == Fields(r2)[4];
    assert Fields(r1)[7] == Fields(r2)[7];
    assert Fields(r1)[9] == Fields(r2)[9];
  }

  /** The ranges the number inputs enforce (minimum and maximum inclusive). */
  predicate InFormRange(r: Record) {
    && 20 <= r.age <= 100
    && 80 <= r.restingBp <= 200
    && 100 <= r.cholesterol <= 600
    && 60 <= r.maxHr <= 210
    && 0.0 <= r.oldpeak <= 6.0
  }

  /** The what-if copy: the original record with cholesterol and resting blood
      pressure replaced by the slider values. */
  function WhatIf(r: Record, newChol: int, newBp: int): (w: Record)
    ensures Fields(w)[4] == ("cholestoral", Int(newChol))
    ensures Fields(w)[3] == ("resting_blood_pressure", Int(newBp))
    ensures forall i :: 0 <= i < |FieldNames| && i != 3 && i != 4 ==> Fields(w)[i] == Fields(r)[i]
  {
    r.(cholesterol := newChol, restingBp := newBp)
  }

  /** With the sliders at their ranges, the what-if record is still a record
      the form could have produced. */
  lemma WhatIfInFormRange(r: Record, newChol: int, newBp: int)
    requires InFormRange(r)
    requires 100 <= newChol <= 600 && 80 <= newBp <= 200
    ensures InFormRange(WhatIf(r, newChol, newBp))
  {
  }

  /** The sliders start at the submitted values, and there the what-if record
      is the record itself. */
  lemma WhatIfAtDefaults(r: Record)
    ensures WhatIf(r, r.cholesterol, r.restingBp) == r
  {
  }
}
