/** What the tables over the account columns say, told by kind and order instead of column by column. */
module SchemaFacts {
  import opened Prelude
  import opened AccountSchema
  import opened AccountCreation
  import opened UpdateMutation
  import opened AccountUpdating

  // ---------- Reading ----------

  /** A field never read is nil if it is a pointer, and otherwise the zero of its own type. */
  lemma ZeroIsGoZero(c: Column)
    ensures FieldShape(c).Pointer? ==> Zero(c) == Nil
    ensures FieldShape(c).Plain? ==>
              || Zero(c) == Int(0) || Zero(c) == Float(0.0) || Zero(c) == Bool(false) || Zero(c) == Text("") || Zero(c) == Time(0)
              || Zero(c) == Document(NilMap)
    ensures FieldShape(c).Plain? && c != ID ==> Fits(TypeOf(c), Zero(c))
    ensures Zero(ID) == Int(0)
  {
  }

  /** An assignment fails exactly on a destination of another type, or on a JSON column whose text is no JSON. */
  lemma AssignmentFailsExactlyIf(e: Entity, c: Column, v: Scanned, codec: Codec)
    requires IsAccountColumn(c)
    ensures var step := AssignOne(e, c, v, codec);
            && (HolderOf(v) != FieldShape(c).holder <==> step == Err(UnexpectedType(c)))
            && (HolderOf(v) == FieldShape(c).holder && v.RawBytes? && v.bytes != "" && codec.unmarshal(v.bytes).None? <==> step == Err(BadJson(c)))
            && (step.Err? ==> step.error == UnexpectedType(c) || step.error == BadJson(c))
  {
    SwitchesAgree(c);
    FailsByShape(e, c, FieldShape(c), v, codec);
  }

  lemma FailsByShape(e: Entity, c: Column, shape: Shape, v: Scanned, codec: Codec)
    requires shape != NotAField && shape.holder != UnknownType
    ensures var step := AssignField(e, c, shape, v, codec);
            && (HolderOf(v) != shape.holder <==> step == Err(UnexpectedType(c)))
            && (HolderOf(v) == shape.holder && v.RawBytes? && v.bytes != "" && codec.unmarshal(v.bytes).None? <==> step == Err(BadJson(c)))
            && (step.Err? ==> step.error == UnexpectedType(c) || step.error == BadJson(c))
  {
  }

  /** A cell means the value it holds, whatever the column; NULL, and an empty JSON text, mean the field's zero. */
  lemma MeaningIsTheCell(c: Column, codec: Codec)
    ensures Meaning(c, Null, codec) == Meaning(c, JsonCell(""), codec) == Zero(c)
    ensures forall n :: Meaning(c, IntCell(n), codec) == Int(n)
    ensures forall r :: Meaning(c, FloatCell(r), codec) == Float(r)
    ensures forall b :: Meaning(c, BoolCell(b), codec) == Bool(b)
    ensures forall s :: Meaning(c, TextCell(s), codec) == Text(s)
    ensures forall t :: Meaning(c, TimeCell(t), codec) == Time(t)
    ensures forall d: JsonMap :: Inverts(codec, d) ==> Meaning(c, JsonCell(codec.marshal(d)), codec) == Document(d)
  {
  }

  /** A cell of the type of the column; the id and the foreign key are integers. */
  predicate CellIsOf(c: Column, cell: Cell, codec: Codec) {
    match cell
    case Null => true
    case IntCell(_) => TypeOf(c) == TypeInt || c == ID || c == PROXY_ID
    case FloatCell(_) => TypeOf(c) == TypeFloat64
    case BoolCell(_) => TypeOf(c) == TypeBool
    case TextCell(_) => TypeOf(c) == TypeString
    case TimeCell(_) => TypeOf(c) == TypeTime
    case JsonCell(b) => TypeOf(c) == TypeJSON && (b == "" || codec.unmarshal(b).Some?)
  }

  lemma FitsByType(c: Column, cell: Cell, codec: Codec)
    requires IsAccountColumn(c)
    ensures FitsHolder(ScanType(c), cell, codec) <==> CellIsOf(c, cell, codec)
  {
  }

  /** Reading a row fails exactly if the cell of some selected column is not of its type, or is JSON that cannot be read. */
  lemma {:induction false} ReadFailsExactlyIf(columns: seq<Column>, row: Row, codec: Codec)
    ensures ReadRow(columns, row, codec).Err? <==> exists c :: c in columns && IsAccountColumn(c) && !CellIsOf(c, row(c), codec)
    ensures ScanRow(columns, row).Err? ==> exists c :: c in columns && IsAccountColumn(c) && !CellIsOf(c, row(c), codec)
  {
    if columns != [] {
      var n, c := |columns| - 1, columns[|columns|-1];
      assert columns == columns[..n] + [c];
      ReadFailsExactlyIf(columns[..n], row, codec);
      SwitchesAgree(c);
      if ScanRow(columns[..n], row).Ok? {
        LastCellFails(columns, row, codec);
      }
    }
  }

  /** Any cell can be scanned for a column that is no account field. */
  lemma OthersScan(c: Column, cell: Cell)
    requires !IsAccountColumn(c)
    ensures Scan(ScanType(c), cell).Ok?
  {
    SwitchesAgree(c);
  }

  lemma LastScanFails(before: seq<Column>, c: Column, row: Row)
    requires ScanRow(before, row).Ok?
    ensures ScanRow(before + [c], row).Err? <==> IsAccountColumn(c) && Scan(ScanType(c), row(c)).Err?
  {
    assert (before + [c])[..|before|] == before;
    if !IsAccountColumn(c) { OthersScan(c, row(c)); }
  }

  lemma LastCellFails(columns: seq<Column>, row: Row, codec: Codec)
    requires columns != [] && ScanRow(columns[..|columns|-1], row).Ok?
    ensures var c, before := columns[|columns|-1], columns[..|columns|-1];
            && (ReadRow(columns, row, codec).Err? <==>
                  ReadRow(before, row, codec).Err? || (IsAccountColumn(c) && !CellIsOf(c, row(c), codec)))
            && (ScanRow(columns, row).Err? ==> IsAccountColumn(c) && !CellIsOf(c, row(c), codec))
  {
    var n, c := |columns| - 1, columns[|columns|-1];
    assert columns == columns[..n] + [c];
    LastScanFails(columns[..n], c, row);
    if IsAccountColumn(c) { FitsByType(c, row(c), codec); }
    if ScanRow(columns, row).Ok? {
      var before := ScanRow(columns[..n], row).value;
      SameOnPrefix(BLANK, columns[..n], before, ScanRow(columns, row).value, codec);
      if ReadRow(columns[..n], row, codec).Ok? {
        LastAssignmentFails(ReadRow(columns[..n], row, codec).value, c, row(c), codec);
      }
    }
  }

  /** Assigning a scanned cell fails exactly if it is JSON that cannot be read. */
  lemma LastAssignmentFails(e: Entity, c: Column, cell: Cell, codec: Codec)
    requires Scan(ScanType(c), cell).Ok?
    ensures AssignOne(e, c, Scan(ScanType(c), cell).value, codec).Err? <==> IsAccountColumn(c) && !FitsHolder(ScanType(c), cell, codec)
  {
    SwitchesAgree(c);
  }

  ghost predicate OthersOf(columns: seq<Column>, row: Row, e: Entity) {
    && (forall c :: c in e.selected <==> c in columns && !IsAccountColumn(c))
    && (forall c :: c in e.selected ==> e.selected[c] == Unknown(row(c)))
  }

  /** Columns that are no account fields are kept as dynamically selected values, and nothing else is. */
  lemma {:induction false} OtherColumnsAreSelected(columns: seq<Column>, row: Row, codec: Codec)
    requires ReadRow(columns, row, codec).Ok?
    ensures OthersOf(columns, row, ReadRow(columns, row, codec).value)
  {
    if columns != [] {
      var n, c := |columns| - 1, columns[|columns|-1];
      assert columns == columns[..n] + [c];
      var before := ScanRow(columns[..n], row).value;
      SameOnPrefix(BLANK, columns[..n], before, ScanRow(columns, row).value, codec);
      OtherColumnsAreSelected(columns[..n], row, codec);
      OneColumnMore(ReadRow(columns[..n], row, codec).value, columns[..n], c, row, codec);
    }
  }

  lemma OneColumnMore(e: Entity, columns: seq<Column>, c: Column, row: Row, codec: Codec)
    requires OthersOf(columns, row, e) && Scan(ScanType(c), row(c)).Ok?
    requires AssignOne(e, c, Scan(ScanType(c), row(c)).value, codec).Ok?
    ensures OthersOf(columns + [c], row, AssignOne(e, c, Scan(ScanType(c), row(c)).value, codec).value)
  {
    SwitchesAgree(c);
    if IsAccountColumn(c) {
      SelectedStays(e, c, FieldShape(c), Scan(ScanType(c), row(c)).value, codec);
    }
  }

  lemma SelectedStays(e: Entity, c: Column, shape: Shape, v: Scanned, codec: Codec)
    requires shape != NotAField && AssignField(e, c, shape, v, codec).Ok?
    ensures AssignField(e, c, shape, v, codec).value.selected == e.selected
  {
  }

  // ---------- Defaults ----------

  /** The blocks of `defaults` come in the order of their columns, each once. */
  lemma DefaultsInColumnOrder(i: nat, j: nat)
    requires i < j < DEFAULT_COUNT
    ensures DefaultAt(i) < DefaultAt(j)
  {
  }

  /** The columns whose default is a function that may not be initialised. */
  predicate MayLackDefault(c: Column) {
    c == CREATED_AT || c == UPDATED_AT || c == CREDENTIALS || c == EXTRA
  }

  /** `defaults` stops at the first of those that is neither set nor initialised. */
  lemma UninitializedIsFirst(env: Values, base: Values)
    ensures match Uninitialized(env, base)
            case None => forall c :: MayLackDefault(c) ==> c in base || c in env
            case Some(c) => MayLackDefault(c) && c !in base && c !in env && forall d :: MayLackDefault(d) && d < c ==> d in base || d in env
  {
  }

  // ---------- Checks ----------

  predicate AcceptedBy(v: Validators, c: Column, value: Value) {
    match c
    case NAME => v.name(value)
    case PLATFORM => v.platform(value)
    case TYPE => v.kind(value)
    case STATUS => v.status(value)
    case SESSION_WINDOW_STATUS => v.sessionWindowStatus(value)
    case _ => true
  }

  ghost predicate FailsAt(values: Values, v: Validators, c: Column) {
    if c in values then !AcceptedBy(v, c, values[c]) else Required(c)
  }

  /** `check` reports the first column, in the order of the table, that is missing or rejected. */
  lemma CheckReportsTheFirst(values: Values, v: Validators)
    ensures match Check(values, v)
            case None => forall c :: !FailsAt(values, v, c)
            case Some(Missing(c)) => c !in values && FailsAt(values, v, c) && forall d :: d < c ==> !FailsAt(values, v, d)
            case Some(Rejected(c)) => c in values && FailsAt(values, v, c) && forall d :: d < c ==> !FailsAt(values, v, d)
  {
  }

  /** An update check reports the first column, in that order, whose value is rejected. */
  lemma UpdateCheckReportsTheFirst(values: Values, v: Validators)
    ensures match CheckUpdate(values, v)
            case None => forall c :: c in values ==> AcceptedBy(v, c, values[c])
            case Some(c) => c in values && !AcceptedBy(v, c, values[c]) && forall d :: d in values && d < c ==> AcceptedBy(v, d, values[d])
  {
  }

  // ---------- Setters and specifications ----------

  /** The fields with an `Add` are the numbers; those with a `Clear` are the optional ones. */
  lemma SettersByType(c: Column)
    ensures Addable(c) <==> TypeOf(c) == TypeInt || TypeOf(c) == TypeFloat64
    ensures Clearable(c) <==> TypeOf(c) != NoField && !Required(c)
  {
  }

  /** Every value of a field's type can be set, every number added to a number, every optional field cleared, and nothing else. */
  lemma CallableByType(c: Column, v: Value)
    ensures Callable(OnField(c, SetField(v))) <==> Fits(TypeOf(c), v)
    ensures Callable(OnField(c, AddField(v))) <==> Fits(TypeOf(c), v) && (TypeOf(c) == TypeInt || TypeOf(c) == TypeFloat64)
    ensures Callable(OnField(c, ClearField)) <==> TypeOf(c) != NoField && !Required(c)
    ensures forall call: Call :: !call.OnField? ==> Callable(call)
  {
    SettersByType(c);
  }

  /** Adding is addition, to nothing as to zero. */
  lemma PlusAdds(m: int, n: int, x: real, y: real)
    ensures Plus(Some(Int(m)), Int(n)) == Int(m + n) && Plus(Some(Float(x)), Float(y)) == Float(x + y)
    ensures Plus(None, Int(n)) == Int(n) && Plus(None, Float(y)) == Float(y)
  {
  }

  predicate IsSpecOf(f: FieldSpec, values: Values) {
    f.column in values && f.value == values[f.column] && f.fieldType == TypeOf(f.column)
  }

  /** The fields come in increasing order of their columns, each one of the columns and set. */
  ghost predicate InColumnOrder(fields: seq<FieldSpec>, columns: seq<Column>, values: Values) {
    && (forall i, j :: 0 <= i < j < |fields| ==> fields[i].column < fields[j].column)
    && (forall i :: 0 <= i < |fields| ==> fields[i].column in columns && IsSpecOf(fields[i], values))
  }

  ghost predicate Lists(fields: seq<FieldSpec>, c: Column) {
    exists i :: 0 <= i < |fields| && fields[i].column == c
  }

  ghost predicate Increasing(columns: seq<Column>) {
    forall i, j :: 0 <= i < j < |columns| ==> columns[i] < columns[j]
  }

  /** A specification lists every set field, in the order of the columns, each once, with its own type and value. */
  lemma {:induction false} SpecFieldsInOrder(columns: seq<Column>, values: Values)
    requires Increasing(columns)
    ensures InColumnOrder(SpecFields(columns, values), columns, values)
    ensures forall c :: Lists(SpecFields(columns, values), c) <==> c in columns && c in values
  {
    if columns != [] {
      var before, last := columns[..|columns|-1], columns[|columns|-1];
      assert columns == before + [last];
      SpecFieldsInOrder(before, values);
      var fields := SpecFields(before, values);
      if last in values {
        OneFieldMore(fields, before, last, values);
      } else {
        assert fields + [] == fields;
      }
    }
  }

  lemma OneFieldMore(fields: seq<FieldSpec>, before: seq<Column>, last: Column, values: Values)
    requires Increasing(before + [last]) && InColumnOrder(fields, before, values) && last in values
    ensures var f := FieldSpec(last, TypeOf(last), values[last]);
            && InColumnOrder(fields + [f], before + [last], values)
            && forall c :: Lists(fields + [f], c) <==> Lists(fields, c) || c == last
  {
    var f := FieldSpec(last, TypeOf(last), values[last]);
    var all, columns := fields + [f], before + [last];
    forall i | 0 <= i < |fields| ensures fields[i].column < last {
      var k :| 0 <= k < |before| && before[k] == fields[i].column;
      assert columns[k] < columns[|before|];
    }
    assert all[|fields|] == f;
    forall c ensures Lists(all, c) <==> Lists(fields, c) || c == last {
      if i :| 0 <= i < |fields| && fields[i].column == c { assert all[i].column == c; }
    }
  }

  /** The columns a plan clears come in that order too, each once, and they are those of the mutation. */
  lemma {:induction false} ClearedInOrder(columns: seq<Column>, cleared: set<Column>)
    requires Increasing(columns)
    ensures Increasing(Cleared(columns, cleared))
    ensures forall c :: c in Cleared(columns, cleared) <==> c in columns && c in cleared
  {
    if columns != [] {
      var n, last := |columns| - 1, columns[|columns|-1];
      assert columns == columns[..n] + [last];
      ClearedInOrder(columns[..n], cleared);
      var before := Cleared(columns[..n], cleared);
      forall i | 0 <= i < |before| ensures before[i] < last {
        assert before[i] in before;
        var k :| 0 <= k < n && columns[k] == before[i];
      }
    }
  }

  /** The columns of the table are in increasing order, and so are those of an update. */
  lemma TableInOrder()
    ensures Increasing(Columns()) && Increasing(UpdateColumns())
  {
  }
}
