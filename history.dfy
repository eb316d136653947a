/** The saved history (lines 120-127 and 158-186): a CSV file that each
    prediction appends one row to, shown back as a table from which rows can
    be selected and deleted. The file is a sequence of lines, a header line
    followed by data lines, or absent. */
module History {
  import opened HeartRecord

  datatype Option<T> = None | Some(value: T)

  /** One saved prediction: the day, the predicted probability and the
      submitted record. */
  datatype Row = Row(date: string, probability: real, record: Record)

  /** The header the first append writes: the keys of the saved dictionary. */
  const HistoryColumns: seq<string> := ["date", "probability"] + FieldNames

  datatype Line = HeaderLine(names: seq<string>) | DataLine(row: Row)

  /** The dictionary saved for a row, `{"date": ..., "probability": ..., **record}`. */
  function RowFields(row: Row): (f: seq<(string, Value)>)
    ensures |f| == |HistoryColumns|
    ensures forall i :: 0 <= i < |f| ==> f[i].0 == HistoryColumns[i]
  {
    [("date", Text(row.date)), ("probability", Real(row.probability))] + Fields(row.record)
  }

  /** A saved row is determined by its cells. */
  lemma RowFieldsInjective(a: Row, b: Row)
    requires RowFields(a) == RowFields(b)
    ensures a == b
  {
    assert RowFields(a)[0] == RowFields(b)[0];
    assert RowFields(a)[1] == RowFields(b)[1];
    assert Fields(a.record) == RowFields(a)[2..] == RowFields(b)[2..] == Fields(b.record);
    FieldsInjective(a.record, b.record);
  }

  /** The shape every file the app writes has: one header line, then data lines. */
  predicate WellFormed(file: Option<seq<Line>>) {
    file.Some? ==>
      && |file.value| >= 1
      && file.value[0] == HeaderLine(HistoryColumns)
      && forall i :: 1 <= i < |file.value| ==> file.value[i].DataLine?
  }

  /** `pd.read_csv(history_file)`: the data rows in file order (none when the
      file is absent). */
  function Rows(file: Option<seq<Line>>): (rows: seq<Row>)
    requires WellFormed(file)
    ensures file.None? ==> rows == []
    ensures file.Some? ==> |rows| == |file.value| - 1 && forall j :: 0 <= j < |rows| ==> file.value[j + 1] == DataLine(rows[j])
  {
    match file
    case None => []
    case Some(lines) => seq(|lines| - 1, j requires 0 <= j < |lines| - 1 => lines[j + 1].row)
  }

  /** Lines 121-127: `to_csv(mode="a", header=not os.path.exists(...))`. The
      header is written only when the file does not exist yet; an existing
      file keeps its lines and gains one. */
  function AppendFile(file: Option<seq<Line>>, row: Row): (after: Option<seq<Line>>)
    ensures after.Some?
    ensures file.None? ==> after.value == [HeaderLine(HistoryColumns), DataLine(row)]
    ensures file.Some? ==> after.value == file.value + [DataLine(row)]
  {
    match file
    case None => Some([HeaderLine(HistoryColumns), DataLine(row)])
    case Some(lines) => Some(lines + [DataLine(row)])
  }

  /** Appending keeps the file well formed, keeps the saved rows and adds the
      new one at the end. */
  lemma AppendKeepsRows(file: Option<seq<Line>>, row: Row)
    requires WellFormed(file)
    ensures WellFormed(AppendFile(file, row))
    ensures Rows(AppendFile(file, row)) == Rows(file) + [row]
  {
    var after := AppendFile(file, row);
    var rs := Rows(after);
    assert |rs| == |Rows(file)| + 1;
    forall j | 0 <= j < |rs| ensures rs[j] == (Rows(file) + [row])[j] {
      assert after.value[j + 1] == DataLine(rs[j]);
    }
  }

  /** The file after appending `rows` one prediction at a time. */
  function AppendAll(file: Option<seq<Line>>, rows: seq<Row>): Option<seq<Line>>
  {
    if |rows| == 0 then file
    else AppendFile(AppendAll(file, rows[..|rows| - 1]), rows[|rows| - 1])
  }

  /** Predictions saved one after another: the file stays well formed, its
      existing lines are untouched, and the saved rows gain the new ones in
      the order they were saved (so from no file, a header line and then
      exactly those rows). */
  lemma {:induction false} AppendAllKeepsOrder(file: Option<seq<Line>>, rows: seq<Row>)
    requires WellFormed(file)
    ensures WellFormed(AppendAll(file, rows))
    ensures Rows(AppendAll(file, rows)) == Rows(file) + rows
    ensures file.Some? ==>
      && AppendAll(file, rows).Some? && |AppendAll(file, rows).value| >= |file.value|
      && AppendAll(file, rows).value[..|file.value|] == file.value
    ensures file.None? && |rows| > 0 ==> AppendAll(file, rows).Some?
  {
    if |rows| > 0 {
      var init := rows[..|rows| - 1];
      AppendAllKeepsOrder(file, init);
      var before := AppendAll(file, init);
      assert AppendAll(file, rows) == AppendFile(before, rows[|rows| - 1]);
      AppendKeepsRows(before, rows[|rows| - 1]);
      assert rows == init + [rows[|rows| - 1]];
      if file.Some? {
        AppendKeepsPrefix(before, rows[|rows| - 1], |file.value|);
      }
    }
  }

  /** An append leaves every prefix of an existing file as it was. */
  lemma AppendKeepsPrefix(file: Option<seq<Line>>, row: Row, n: nat)
    requires file.Some? && n <= |file.value|
    ensures |AppendFile(file, row).value| >= n
    ensures AppendFile(file, row).value[..n] == file.value[..n]
  {
  }

  /** What the "Your Past Results" section shows (lines 158-163 and 185-186). */
  datatype View = NoFile | NoRecords | Table(rows: seq<Row>)

  function HistoryView(file: Option<seq<Line>>): (v: View)
    requires WellFormed(file)
    ensures v == NoFile <==> file.None?
    ensures v == NoRecords <==> file.Some? && Rows(file) == []
    ensures v.Table? ==> v.rows == Rows(file) && |v.rows| > 0
  {
    if file.None? then NoFile
    else if Rows(file) == [] then NoRecords
    else Table(Rows(file))
  }

  /** After a prediction is saved the table is shown and ends with it. */
  lemma ViewAfterAppend(file: Option<seq<Line>>, row: Row)
    requires WellFormed(file)
    ensures WellFormed(AppendFile(file, row))
    ensures HistoryView(AppendFile(file, row)) == Table(Rows(file) + [row])
  {
    AppendKeepsRows(file, row);
  }

  // ---------------------------------------------------------------------
  // Deleting rows

  /** The positions below `n` not in `selected`, in increasing order:
      the labels `drop(index=selected)` keeps. */
  function Kept(n: nat, selected: set<int>): (ks: seq<int>)
    ensures forall a :: 0 <= a < |ks| ==> 0 <= ks[a] < n
  {
    if n == 0 then []
    else Kept(n - 1, selected) + (if n - 1 in selected then [] else [n - 1])
  }

  /** `rows.drop(index=selected)` on a table whose labels are its positions. */
  function Remove(rows: seq<Row>, selected: set<int>): seq<Row>
  {
    var ks := Kept(|rows|, selected);
    seq(|ks|, j requires 0 <= j < |ks| => rows[ks[j]])
  }

  /** The selected positions below `n`. */
  ghost function Below(selected: set<int>, n: int): set<int> {
    set k | k in selected && 0 <= k < n
  }

  /** The kept positions are increasing, are exactly the unselected ones,
      and number `n` less the selected positions below `n`. */
  lemma KeptSpec(n: nat, selected: set<int>)
    ensures var ks := Kept(n, selected);
      && (forall a, b :: 0 <= a < b < |ks| ==> ks[a] < ks[b])
      && (forall k :: 0 <= k < n ==> (k in ks <==> k !in selected))
      && |ks| == n - |Below(selected, n)|
  {
    KeptIncreasing(n, selected);
    KeptExactly(n, selected);
    KeptCount(n, selected);
  }

  lemma {:induction false} KeptIncreasing(n: nat, selected: set<int>)
    ensures forall a :: 0 <= a < |Kept(n, selected)| ==> 0 <= Kept(n, selected)[a] < n
    ensures forall a, b :: 0 <= a < b < |Kept(n, selected)| ==> Kept(n, selected)[a] < Kept(n, selected)[b]
  {
    if n > 0 {
      KeptIncreasing(n - 1, selected);
      var prev, ks := Kept(n - 1, selected), Kept(n, selected);
      assert ks == prev + (if n - 1 in selected then [] else [n - 1]);
      assert forall a :: 0 <= a < |prev| ==> ks[a] == prev[a];
      forall a, b | 0 <= a < b < |ks| ensures ks[a] < ks[b] {
        if b == |prev| {
          assert ks[b] == n - 1 && prev[a] < n - 1;
        } else {
          assert prev[a] < prev[b];
        }
      }
    }
  }

  lemma {:induction false} KeptExactly(n: nat, selected: set<int>)
    ensures forall k :: 0 <= k < n ==> (k in Kept(n, selected) <==> k !in selected)
  {
    if n > 0 {
      KeptExactly(n - 1, selected);
      KeptIncreasing(n - 1, selected);
      var prev, ks := Kept(n - 1, selected), Kept(n, selected);
      assert ks == prev + (if n - 1 in selected then [] else [n - 1]);
      assert forall k :: k in ks <==> k in prev || (k == n - 1 && n - 1 !in selected);
    }
  }

  lemma {:induction false} KeptCount(n: nat, selected: set<int>)
    ensures |Kept(n, selected)| == n - |Below(selected, n)|
  {
    if n > 0 {
      KeptCount(n - 1, selected);
      BelowStep(selected, n - 1);
    }
  }

  /** Raising the bound by one adds that position when it is selected. */
  lemma BelowStep(selected: set<int>, n: nat)
    ensures Below(selected, n + 1) == Below(selected, n) + (if n in selected then {n} else {})
    ensures n !in Below(selected, n)
  {
    var extra: set<int> := if n in selected then {n} else {};
    forall k | k in Below(selected, n + 1)
      ensures k in Below(selected, n) + extra
    {
      if k != n { assert k in Below(selected, n); }
    }
  }

  /** What `drop` promises: the remaining rows are the unselected rows in
      their original order, and there are as many fewer as rows selected. */
  lemma RemoveSpec(rows: seq<Row>, selected: set<int>)
    requires forall k :: k in selected ==> 0 <= k < |rows|
    ensures |Remove(rows, selected)| == |rows| - |selected|
    ensures exists ks: seq<int> ::
      && |ks| == |Remove(rows, selected)|
      && (forall a, b :: 0 <= a < b < |ks| ==> ks[a] < ks[b])
      && (forall a :: 0 <= a < |ks| ==> 0 <= ks[a] < |rows| && Remove(rows, selected)[a] == rows[ks[a]])
      && (forall k :: 0 <= k < |rows| ==> (k in ks <==> k !in selected))
  {
    KeptSpec(|rows|, selected);
    assert Below(selected, |rows|) == selected;
    var ks := Kept(|rows|, selected);
    assert forall a :: 0 <= a < |ks| ==> Remove(rows, selected)[a] == rows[ks[a]];
  }

  lemma {:induction false} KeptNone(n: nat)
    ensures Kept(n, {}) == seq(n, k requires 0 <= k < n => k)
  {
    if n > 0 {
      KeptNone(n - 1);
    }
  }

  /** Selecting nothing keeps every row. */
  lemma RemoveNothing(rows: seq<Row>)
    ensures Remove(rows, {}) == rows
  {
    KeptNone(|rows|);
  }

  lemma {:induction false} KeptEverything(n: nat, selected: set<int>)
    requires forall k :: 0 <= k < n ==> k in selected
    ensures Kept(n, selected) == []
  {
    if n > 0 {
      KeptEverything(n - 1, selected);
    }
  }

  /** Selecting every row keeps none. */
  lemma RemoveEverything(rows: seq<Row>, selected: set<int>)
    requires forall k :: 0 <= k < |rows| ==> k in selected
    ensures Remove(rows, selected) == []
  {
    KeptEverything(|rows|, selected);
  }

  /** The message the delete button leads to. */
  datatype DeleteOutcome =
    | NoTable          // no file, or no rows: no editor is shown
    | NothingSelected  // no box ticked: no button is shown
    | UnknownLabel     // a ticked row the file does not hold: `drop` raises KeyError
    | Deleted(count: nat)

  /** Lines 178-183: delete the rows whose labels are `selected` and rewrite
      the file with the header and the remaining rows. */
  function DeleteRows(file: Option<seq<Line>>, selected: set<int>): (out: (DeleteOutcome, Option<seq<Line>>))
    requires WellFormed(file)
    ensures out.0.Deleted? <==>
      file.Some? && |Rows(file)| > 0 && selected != {} && forall k :: k in selected ==> 0 <= k < |Rows(file)|
    ensures !out.0.Deleted? ==> out.1 == file
    ensures out.0 == NoTable <==> file.None? || Rows(file) == []
    ensures out.0.Deleted? ==>
      out.0.count == |selected| && WellFormed(out.1) && out.1.Some?
      && Rows(out.1) == Remove(Rows(file), selected)
  {
    if file.None? || Rows(file) == [] then (NoTable, file)
    else if selected == {} then (NothingSelected, file)
    else if exists k :: k in selected && !(0 <= k < |Rows(file)|) then (UnknownLabel, file)
    else
      var remaining := Remove(Rows(file), selected);
      var after := Some([HeaderLine(HistoryColumns)] + seq(|remaining|, j requires 0 <= j < |remaining| => DataLine(remaining[j])));
      assert forall j :: 0 <= j < |remaining| ==> after.value[j + 1] == DataLine(remaining[j]);
      assert Rows(after) == remaining;
      (Deleted(|selected|), after)
  }

  /** A deletion leaves the unselected rows in their order, reports how many
      went, and deleting every row leaves a file that reads as empty. */
  lemma DeleteKeepsOthers(file: Option<seq<Line>>, selected: set<int>)
    requires WellFormed(file)
    requires DeleteRows(file, selected).0.Deleted?
    ensures |Rows(DeleteRows(file, selected).1)| == |Rows(file)| - |selected|
    ensures (forall k :: 0 <= k < |Rows(file)| ==> k in selected) ==>
      HistoryView(DeleteRows(file, selected).1) == NoRecords
  {
    RemoveSpec(Rows(file), selected);
    if forall k :: 0 <= k < |Rows(file)| ==> k in selected {
      RemoveEverything(Rows(file), selected);
    }
  }

  /** The history file an app session works on. */
  class HistoryStore {
    var file: Option<seq<Line>>

    ghost predicate Valid()
      reads this
    {
      WellFormed(file)
    }

    constructor(initial: Option<seq<Line>>)
      requires WellFormed(initial)
      ensures Valid() && file == initial
    {
      file := initial;
    }

    /** Lines 121-127: save one prediction. */
    method Append(date: string, probability: real, r: Record)
      requires Valid()
      modifies this
      ensures Valid()
      ensures file == AppendFile(old(file), Row(date, probability, r))
      ensures Rows(file) == old(Rows(file)) + [Row(date, probability, r)]
    {
      AppendKeepsRows(file, Row(date, probability, r));
      file := AppendFile(file, Row(date, probability, r));
    }

    /** Lines 178-183: delete the ticked rows after the button is pressed. */
    method Delete(selected: set<int>) returns (outcome: DeleteOutcome)
      requires Valid()
      modifies this
      ensures Valid()
      ensures (outcome, file) == DeleteRows(old(file), selected)
    {
      var out := DeleteRows(file, selected);
      outcome := out.0;
      file := out.1;
    }
  }
}
