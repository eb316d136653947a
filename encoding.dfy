/** One-hot encoding of a record and its alignment with the training
    columns: `pd.get_dummies(pd.DataFrame([record])).reindex(columns=columns,
    fill_value=0)`. */
module Encoding {
  import opened HeartRecord

  /** The dummy column one dictionary entry becomes: a numeric entry keeps
      its key and value, a text entry `k: v` becomes column `k_v` set to 1. */
  function Dummy(f: (string, Value)): (string, real)
  {
    match f.1
    case Int(i) => (f.0, i as real)
    case Real(x) => (f.0, x)
    case Text(s) => (f.0 + "_" + s, 1.0)
  }

  /** `pd.get_dummies` of the one-row frame: one generated column per field.
      (pandas lists the numeric columns first; the order does not matter once
      the columns are reindexed.) */
  function Dummies(r: Record): (d: seq<(string, real)>)
    ensures |d| == |FieldNames|
    ensures forall i :: 0 <= i < |d| && IsNumericField(i) ==> d[i].0 == FieldNames[i]
    ensures forall i :: 0 <= i < |d| && !IsNumericField(i) ==> d[i].1 == 1.0
  {
    var f := Fields(r);
    seq(|f|, i requires 0 <= i < |f| => Dummy(f[i]))
  }

  /** The value of column `c` in a generated frame, or 0 when the frame has
      no such column. */
  function Lookup(d: seq<(string, real)>, c: string): (v: real)
    ensures (forall k :: 0 <= k < |d| ==> d[k].0 != c) ==> v == 0.0
    ensures forall k :: 0 <= k < |d| && d[k].0 == c && (forall j :: 0 <= j < k ==> d[j].0 != c) ==> v == d[k].1
  {
    if |d| == 0 then 0.0
    else if d[0].0 == c then d[0].1
    else Lookup(d[1..], c)
  }

  /** `.reindex(columns=columns, fill_value=0)`: one value per schema column,
      taken from the generated column of that name, 0 where there is none. */
  function Reindex(d: seq<(string, real)>, columns: seq<string>): (v: seq<real>)
    ensures |v| == |columns|
  {
    seq(|columns|, i requires 0 <= i < |columns| => Lookup(d, columns[i]))
  }

  /** The encoded vector handed to the scaler (lines 64-65 and 141-142). */
  function Encode(r: Record, columns: seq<string>): (v: seq<real>)
    ensures |v| == |columns|
  {
    Reindex(Dummies(r), columns)
  }

  /** The value a schema column should hold for a record, stated field by
      field: a numeric field's own column carries its value, the column
      `field_label` of each categorical field's chosen option carries 1, and
      every other column 0. */
  function ColumnValue(r: Record, c: string): real
  {
    if c == "age" then r.age as real
    else if c == "resting_blood_pressure" then r.restingBp as real
    else if c == "cholestoral" then r.cholesterol as real
    else if c == "Max_heart_rate" then r.maxHr as real
    else if c == "oldpeak" then r.oldpeak
    else if c == "sex_" + r.sex.Label()
         || c == "chest_pain_type_" + r.chestPain.Label()
         || c == "fasting_blood_sugar_" + r.fastingBs.Label()
         || c == "rest_ecg_" + r.restEcg.Label()
         || c == "exercise_induced_angina_" + r.exerciseAngina.Label()
         || c == "slope_" + r.slope.Label()
    then 1.0
    else 0.0
  }

  /** A generated column's name begins with the key it came from. */
  lemma DummyStartsWithKey(f: (string, Value))
    ensures |Dummy(f).0| >= |f.0| && Dummy(f).0[..|f.0|] == f.0
  {
  }

  /** Tells the field keys apart by reading at most five characters, all
      within the key itself. */
  function KeyTag(c: string): int {
    if |c| == 0 then -1
    else if c[0] == 'a' then 0
    else if c[0] == 's' then (if |c| > 1 && c[1] == 'e' then 1 else 10)
    else if c[0] == 'c' then (if |c| > 2 && c[2] == 'e' then 2 else 4)
    else if c[0] == 'r' then (if |c| > 4 && c[4] == 'i' then 3 else 6)
    else if c[0] == 'f' then 5
    else if c[0] == 'M' then 7
    else if c[0] == 'e' then 8
    else if c[0] == 'o' then 9
    else -1
  }

  lemma KeyTagOfDummy(r: Record, i: int)
    requires 0 <= i < |FieldNames|
    ensures KeyTag(Dummies(r)[i].0) == i
  {
    var c, k := Dummies(r)[i].0, FieldNames[i];
    DummyStartsWithKey(Fields(r)[i]);
    assert |c| >= |k| >= 3;
    assert c[..|k|] == k;
    assert c[0] == k[0] && c[1] == k[1] && c[2] == k[2];
    if |k| > 4 {
      assert c[4] == k[4];
    }
  }

  /** The generated column names are pairwise distinct. */
  lemma DummyNamesDistinct(r: Record)
    ensures forall i, j :: 0 <= i < j < |Dummies(r)| ==> Dummies(r)[i].0 != Dummies(r)[j].0
  {
    forall i, j | 0 <= i < j < |Dummies(r)| ensures Dummies(r)[i].0 != Dummies(r)[j].0 {
      KeyTagOfDummy(r, i);
      KeyTagOfDummy(r, j);
    }
  }

  /** The names `ColumnValue` tests, told apart by their tags. */
  lemma ColumnNameTags(r: Record)
    ensures KeyTag("age") == 0 && KeyTag("resting_blood_pressure") == 3 && KeyTag("cholestoral") == 4
    ensures KeyTag("Max_heart_rate") == 7 && KeyTag("oldpeak") == 9
    ensures KeyTag("sex_" + r.sex.Label()) == 1
    ensures KeyTag("chest_pain_type_" + r.chestPain.Label()) == 2
    ensures KeyTag("fasting_blood_sugar_" + r.fastingBs.Label()) == 5
    ensures KeyTag("rest_ecg_" + r.restEcg.Label()) == 6
    ensures KeyTag("exercise_induced_angina_" + r.exerciseAngina.Label()) == 8
    ensures KeyTag("slope_" + r.slope.Label()) == 10
  {
    var d := Dummies(r);
    KeyTagOfDummy(r, 1);
    assert d[1].0 == "sex_" + r.sex.Label();
    KeyTagOfDummy(r, 2);
    assert d[2].0 == "chest_pain_type_" + r.chestPain.Label();
    KeyTagOfDummy(r, 5);
    assert d[5].0 == "fasting_blood_sugar_" + r.fastingBs.Label();
    KeyTagOfDummy(r, 6);
    assert d[6].0 == "rest_ecg_" + r.restEcg.Label();
    KeyTagOfDummy(r, 8);
    assert d[8].0 == "exercise_induced_angina_" + r.exerciseAngina.Label();
    KeyTagOfDummy(r, 10);
    assert d[10].0 == "slope_" + r.slope.Label();
  }

  /** Each generated column carries the value the field-by-field reading gives it. */
  lemma ColumnValueOfDummy(r: Record, k: int)
    requires 0 <= k < |FieldNames|
    ensures ColumnValue(r, Dummies(r)[k].0) == Dummies(r)[k].1
  {
    var d := Dummies(r);
    KeyTagOfDummy(r, k);
    ColumnNameTags(r);
    if k == 1 {
      assert d[1].0 == "sex_" + r.sex.Label();
    } else if k == 2 {
      assert d[2].0 == "chest_pain_type_" + r.chestPain.Label();
    } else if k == 5 {
      assert d[5].0 == "fasting_blood_sugar_" + r.fastingBs.Label();
    } else if k == 6 {
      assert d[6].0 == "rest_ecg_" + r.restEcg.Label();
    } else if k == 8 {
      assert d[8].0 == "exercise_induced_angina_" + r.exerciseAngina.Label();
    } else if k == 10 {
      assert d[10].0 == "slope_" + r.slope.Label();
    }
  }

  /** A column the record does not generate reads as 0. */
  lemma ColumnValueAbsent(r: Record, c: string)
    requires forall k :: 0 <= k < |Dummies(r)| ==> Dummies(r)[k].0 != c
    ensures ColumnValue(r, c) == 0.0
  {
    var d := Dummies(r);
    assert d[0].0 != c && d[1].0 != c && d[2].0 != c && d[3].0 != c && d[4].0 != c && d[5].0 != c;
    assert d[6].0 != c && d[7].0 != c && d[8].0 != c && d[9].0 != c && d[10].0 != c;
  }

  /** The encoded vector is aligned with the schema: entry `i` is the value
      the record gives column `columns[i]`, so a schema column the record
      does not generate holds 0 and a generated column outside the schema
      appears nowhere. */
  lemma EncodeMatchesColumns(r: Record, columns: seq<string>)
    ensures |Encode(r, columns)| == |columns|
    ensures forall i :: 0 <= i < |columns| ==> Encode(r, columns)[i] == ColumnValue(r, columns[i])
  {
    var d := Dummies(r);
    DummyNamesDistinct(r);
    forall i | 0 <= i < |columns| ensures Encode(r, columns)[i] == ColumnValue(r, columns[i]) {
      var c := columns[i];
      if k :| 0 <= k < |d| && d[k].0 == c {
        assert Lookup(d, c) == d[k].1;
        ColumnValueOfDummy(r, k);
      } else {
        assert Lookup(d, c) == 0.0;
        ColumnValueAbsent(r, c);
      }
    }
  }

  /** Generated columns that the schema does not list are dropped: adding
      them to the frame leaves the reindexed vector unchanged. */
  lemma {:induction false} LookupIgnoresOthers(d: seq<(string, real)>, extra: seq<(string, real)>, c: string)
    requires forall k :: 0 <= k < |extra| ==> extra[k].0 != c
    ensures Lookup(d + extra, c) == Lookup(d, c)
  {
    if |d| == 0 {
      assert d + extra == extra;
    } else {
      assert (d + extra)[1..] == d[1..] + extra;
      LookupIgnoresOthers(d[1..], extra, c);
    }
  }

  lemma ReindexDropsUnlisted(d: seq<(string, real)>, extra: seq<(string, real)>, columns: seq<string>)
    requires forall k :: 0 <= k < |extra| ==> extra[k].0 !in columns
    ensures Reindex(d + extra, columns) == Reindex(d, columns)
  {
    forall i | 0 <= i < |columns| ensures Lookup(d + extra, columns[i]) == Lookup(d, columns[i]) {
      LookupIgnoresOthers(d, extra, columns[i]);
    }
  }

  /** The what-if vector differs from the original only in the
      `cholestoral` and `resting_blood_pressure` columns, which carry the
      slider values. */
  lemma WhatIfEncoding(r: Record, newChol: int, newBp: int, columns: seq<string>)
    ensures |Encode(WhatIf(r, newChol, newBp), columns)| == |columns|
    ensures forall i :: 0 <= i < |columns| && columns[i] != "cholestoral" && columns[i] != "resting_blood_pressure" ==>
      Encode(WhatIf(r, newChol, newBp), columns)[i] == Encode(r, columns)[i]
    ensures forall i :: 0 <= i < |columns| && columns[i] == "cholestoral" ==>
      Encode(WhatIf(r, newChol, newBp), columns)[i] == newChol as real
    ensures forall i :: 0 <= i < |columns| && columns[i] == "resting_blood_pressure" ==>
      Encode(WhatIf(r, newChol, newBp), columns)[i] == newBp as real
  {
    EncodeMatchesColumns(r, columns);
    EncodeMatchesColumns(WhatIf(r, newChol, newBp), columns);
  }
}
