/** The Account entity: its columns, and reading a database row into it. */
module AccountSchema {
  import opened Prelude

  /** A column name; the account columns are numbered in schema order. */
  newtype Column = int

  const ID: Column := 0
  const CREATED_AT: Column := 1
  const UPDATED_AT: Column := 2
  const DELETED_AT: Column := 3
  const NAME: Column := 4
  const NOTES: Column := 5
  const PLATFORM: Column := 6
  const TYPE: Column := 7
  const CREDENTIALS: Column := 8
  const EXTRA: Column := 9
  const PROXY_ID: Column := 10
  const CONCURRENCY: Column := 11
  const LOAD_FACTOR: Column := 12
  const PRIORITY: Column := 13
  const RATE_MULTIPLIER: Column := 14
  const STATUS: Column := 15
  const ERROR_MESSAGE: Column := 16
  const LAST_USED_AT: Column := 17
  const EXPIRES_AT: Column := 18
  const AUTO_PAUSE_ON_EXPIRED: Column := 19
  const SCHEDULABLE: Column := 20
  const RATE_LIMITED_AT: Column := 21
  const RATE_LIMIT_RESET_AT: Column := 22
  const OVERLOAD_UNTIL: Column := 23
  const TEMP_UNSCHEDULABLE_UNTIL: Column := 24
  const TEMP_UNSCHEDULABLE_REASON: Column := 25
  const SESSION_WINDOW_START: Column := 26
  const SESSION_WINDOW_END: Column := 27
  const SESSION_WINDOW_STATUS: Column := 28

  const COLUMN_COUNT := 29

  predicate IsAccountColumn(c: Column) {
    0 <= c as int < COLUMN_COUNT
  }

  function Columns(): (columns: seq<Column>)
    ensures |columns| == COLUMN_COUNT
    ensures forall i :: 0 <= i < COLUMN_COUNT ==> columns[i] == i as Column
  {
    seq(COLUMN_COUNT, i => i as Column)
  }

  /** Every account column is listed. */
  lemma ColumnsAreComplete(c: Column)
    ensures IsAccountColumn(c) <==> c in Columns()
  {
    if IsAccountColumn(c) {
      assert Columns()[c as int] == c;
    }
  }

  // ---------- Values ----------

  datatype Json =
    | JNull | JBool(b: bool) | JNumber(n: real) | JString(s: string)
    | JArray(elements: seq<Json>) | JObject(members: map<string, Json>)

  datatype JsonMap = NilMap | JsonMap(members: map<string, Json>)

  /** A field of the entity; a nil pointer is Nil, any other pointer is what it points to. */
  datatype Value =
    | Nil | Int(n: int) | Float(r: real) | Bool(b: bool) | Text(s: string) | Time(t: int) | Document(d: JsonMap)

  /** A cell of a database row. */
  datatype Cell =
    | Null | IntCell(n: int) | FloatCell(r: real) | BoolCell(b: bool) | TextCell(s: string) | TimeCell(t: int)
    | JsonCell(bytes: string)

  /** The scan destinations of `scanValues`. */
  datatype HolderType = NullInt64 | NullFloat64 | NullBool | NullString | NullTime | Bytes | UnknownType

  /** A scan destination after the driver filled it. */
  datatype Scanned =
    | Int64(valid: bool, n: int) | Float64(valid: bool, r: real) | Boolean(valid: bool, b: bool)
    | String(valid: bool, s: string) | Timestamp(valid: bool, t: int) | RawBytes(bytes: string) | Unknown(cell: Cell)

  datatype ReadError = Mismatch(values: int, columns: int) | UnexpectedType(c: Column) | BadJson(c: Column) | ScanFailed

  /** The JSON codec of the standard library, of which only inversion on the documents at hand is used. */
  datatype Codec = Codec(marshal: JsonMap -> string, unmarshal: string -> Option<JsonMap>)

  /** The codec writes a document as text, and reads that text as the document. */
  predicate Inverts(codec: Codec, d: JsonMap) {
    codec.marshal(d) != "" && codec.unmarshal(codec.marshal(d)) == Some(d)
  }

  // ---------- The two switches ----------

  /** The switch of `scanValues`: the destination allocated for a column. */
  function ScanType(c: Column): HolderType {
    match c
    case CREDENTIALS | EXTRA => Bytes
    case AUTO_PAUSE_ON_EXPIRED | SCHEDULABLE => NullBool
    case RATE_MULTIPLIER => NullFloat64
    case ID | PROXY_ID | CONCURRENCY | LOAD_FACTOR | PRIORITY => NullInt64
    case NAME | NOTES | PLATFORM | TYPE | STATUS | ERROR_MESSAGE | TEMP_UNSCHEDULABLE_REASON | SESSION_WINDOW_STATUS => NullString
    case CREATED_AT | UPDATED_AT | DELETED_AT | LAST_USED_AT | EXPIRES_AT | RATE_LIMITED_AT | RATE_LIMIT_RESET_AT | OVERLOAD_UNTIL
       | TEMP_UNSCHEDULABLE_UNTIL | SESSION_WINDOW_START | SESSION_WINDOW_END => NullTime
    case _ => UnknownType
  }

  /** What one case of the switch of `assignValues` expects, and whether the field it sets is a pointer. */
  datatype Shape = Plain(holder: HolderType) | Pointer(holder: HolderType) | NotAField

  function FieldShape(c: Column): Shape {
    match c
    case ID => Plain(NullInt64)
    case CREATED_AT => Plain(NullTime)
    case UPDATED_AT => Plain(NullTime)
    case DELETED_AT => Pointer(NullTime)
    case NAME => Plain(NullString)
    case NOTES => Pointer(NullString)
    case PLATFORM => Plain(NullString)
    case TYPE => Plain(NullString)
    case CREDENTIALS => Plain(Bytes)
    case EXTRA => Plain(Bytes)
    case PROXY_ID => Pointer(NullInt64)
    case CONCURRENCY => Plain(NullInt64)
    case LOAD_FACTOR => Pointer(NullInt64)
    case PRIORITY => Plain(NullInt64)
    case RATE_MULTIPLIER => Plain(NullFloat64)
    case STATUS => Plain(NullString)
    case ERROR_MESSAGE => Pointer(NullString)
    case LAST_USED_AT => Pointer(NullTime)
    case EXPIRES_AT => Pointer(NullTime)
    case AUTO_PAUSE_ON_EXPIRED => Plain(NullBool)
    case SCHEDULABLE => Plain(NullBool)
    case RATE_LIMITED_AT => Pointer(NullTime)
    case RATE_LIMIT_RESET_AT => Pointer(NullTime)
    case OVERLOAD_UNTIL => Pointer(NullTime)
    case TEMP_UNSCHEDULABLE_UNTIL => Pointer(NullTime)
    case TEMP_UNSCHEDULABLE_REASON => Pointer(NullString)
    case SESSION_WINDOW_START => Pointer(NullTime)
    case SESSION_WINDOW_END => Pointer(NullTime)
    case SESSION_WINDOW_STATUS => Pointer(NullString)
    case _ => NotAField
  }

  /** The value a field has before anything is assigned to it. */
  function ZeroOf(shape: Shape): Value {
    match shape
    case Plain(NullInt64) => Int(0)
    case Plain(NullFloat64) => Float(0.0)
    case Plain(NullBool) => Bool(false)
    case Plain(NullString) => Text("")
    case Plain(NullTime) => Time(0)
    case Plain(Bytes) => Document(NilMap)
    case _ => Nil
  }

  function Zero(c: Column): Value {
    ZeroOf(FieldShape(c))
  }

  function HolderOf(v: Scanned): HolderType {
    match v
    case Int64(_, _) => NullInt64
    case Float64(_, _) => NullFloat64
    case Boolean(_, _) => NullBool
    case String(_, _) => NullString
    case Timestamp(_, _) => NullTime
    case RawBytes(_) => Bytes
    case Unknown(_) => UnknownType
  }

  /** What the driver leaves in a destination; a kind of cell the destination cannot hold is an error. */
  function Scan(h: HolderType, cell: Cell): Result<Scanned, ReadError> {
    match (h, cell)
    case (UnknownType, _) => Ok(Unknown(cell))
    case (NullInt64, Null) => Ok(Int64(false, 0))
    case (NullInt64, IntCell(n)) => Ok(Int64(true, n))
    case (NullFloat64, Null) => Ok(Float64(false, 0.0))
    case (NullFloat64, FloatCell(r)) => Ok(Float64(true, r))
    case (NullBool, Null) => Ok(Boolean(false, false))
    case (NullBool, BoolCell(b)) => Ok(Boolean(true, b))
    case (NullString, Null) => Ok(String(false, ""))
    case (NullString, TextCell(s)) => Ok(String(true, s))
    case (NullTime, Null) => Ok(Timestamp(false, 0))
    case (NullTime, TimeCell(t)) => Ok(Timestamp(true, t))
    case (Bytes, Null) => Ok(RawBytes(""))
    case (Bytes, JsonCell(b)) => Ok(RawBytes(b))
    case _ => Err(ScanFailed)
  }

  // ---------- The entity ----------

  /** The entity a row is read into: the fields assigned so far, and dynamically selected values. */
  datatype Entity = Entity(stored: map<Column, Value>, selected: map<Column, Scanned>) {
    /** The value of a field; a field never assigned has its zero value. */
    function Field(c: Column): Value {
      if c in stored then stored[c] else Zero(c)
    }

    function Set(c: Column, v: Value): Entity {
      this.(stored := stored[c := v])
    }
  }

  const BLANK := Entity(map[], map[])

  /** The body of one case of `assignValues`; the id is stored even when the cell is NULL. */
  function AssignField(e: Entity, c: Column, shape: Shape, v: Scanned, codec: Codec): Result<Entity, ReadError>
    requires shape != NotAField
  {
    if HolderOf(v) != shape.holder then Err(UnexpectedType(c))
    else
      match v
      case Int64(valid, n) => Ok(if valid || c == ID then e.Set(c, Int(n)) else e)
      case Float64(valid, r) => Ok(if valid then e.Set(c, Float(r)) else e)
      case Boolean(valid, b) => Ok(if valid then e.Set(c, Bool(b)) else e)
      case String(valid, s) => Ok(if valid then e.Set(c, Text(s)) else e)
      case Timestamp(valid, t) => Ok(if valid then e.Set(c, Time(t)) else e)
      case RawBytes(bytes) =>
        if bytes == "" then Ok(e)
        else if codec.unmarshal(bytes).None? then Err(BadJson(c))
        else Ok(e.Set(c, Document(codec.unmarshal(bytes).value)))
      case Unknown(_) => Err(UnexpectedType(c))
  }

  /** The switch of `assignValues`. */
  function AssignOne(e: Entity, c: Column, v: Scanned, codec: Codec): Result<Entity, ReadError> {
    if FieldShape(c) == NotAField then Ok(e.(selected := e.selected[c := v]))
    else AssignField(e, c, FieldShape(c), v, codec)
  }

  /** The state after the first `|columns|` cases, or the first error. */
  function Assigned(e: Entity, columns: seq<Column>, values: seq<Scanned>, codec: Codec): Result<Entity, ReadError>
    requires |columns| <= |values|
  {
    if columns == [] then Ok(e)
    else
      var n := |columns| - 1;
      match Assigned(e, columns[..n], values, codec)
      case Err(error) => Err(error)
      case Ok(e') => AssignOne(e', columns[n], values[n], codec)
  }

  /** The entity holds all columns before the one that failed. */
  ghost predicate StoppedAt(e: Entity, columns: seq<Column>, values: seq<Scanned>, codec: Codec, error: ReadError, left: Entity)
    requires |columns| <= |values|
  {
    exists k :: 0 <= k < |columns| && Assigned(e, columns[..k], values, codec) == Ok(left)
                && AssignOne(left, columns[k], values[k], codec) == Err(error)
  }

  class Account {
    var entity: Entity

    constructor ()
      ensures entity == BLANK
    {
      entity := BLANK;
    }

    /** The scan destinations for the selected columns. */
    static method ScanValues(columns: seq<Column>) returns (values: seq<HolderType>)
      ensures |values| == |columns|
      ensures forall i :: 0 <= i < |columns| ==> values[i] == ScanType(columns[i])
    {
      values := [];
      for i := 0 to |columns|
        invariant |values| == i
        invariant forall k :: 0 <= k < i ==> values[k] == ScanType(columns[k])
      {
        values := values + [ScanType(columns[i])];
      }
    }

    method AssignValues(columns: seq<Column>, values: seq<Scanned>, codec: Codec) returns (error: Option<ReadError>)
      modifies this
      ensures |values| < |columns| ==> error == Some(Mismatch(|values|, |columns|)) && entity == old(entity)
      ensures |values| >= |columns| ==>
                match Assigned(old(entity), columns, values, codec)
                case Ok(e) => error == None && entity == e
                case Err(e) => error == Some(e) && StoppedAt(old(entity), columns, values, codec, e, entity)
    {
      if |values| < |columns| {
        return Some(Mismatch(|values|, |columns|));
      }
      for i := 0 to |columns|
        invariant Assigned(old(entity), columns[..i], values, codec) == Ok(entity)
      {
        var step := AssignOne(entity, columns[i], values[i], codec);
        assert columns[..i+1][..i] == columns[..i];
        if step.Err? {
          ErrorsPersist(old(entity), columns, values, codec, i + 1);
          return Some(step.error);
        }
        entity := step.value;
      }
      assert columns[..|columns|] == columns;
      error := None;
    }
  }

  lemma {:induction false} ErrorsPersist(e: Entity, columns: seq<Column>, values: seq<Scanned>, codec: Codec, i: nat)
    requires |columns| <= |values| && i <= |columns|
    requires Assigned(e, columns[..i], values, codec).Err?
    ensures Assigned(e, columns, values, codec) == Assigned(e, columns[..i], values, codec)
  {
    if i < |columns| {
      var n := |columns| - 1;
      assert columns[..n][..i] == columns[..i];
      ErrorsPersist(e, columns[..n], values, codec, i);
    } else {
      assert columns[..i] == columns;
    }
  }

  // ---------- Reading a row ----------

  type Row = Column -> Cell

  /** The driver scans every selected cell into its destination. */
  function ScanRow(columns: seq<Column>, row: Row): (r: Result<seq<Scanned>, ReadError>)
    ensures r.Ok? ==> |r.value| == |columns|
  {
    if columns == [] then Ok([])
    else
      var n := |columns| - 1;
      match ScanRow(columns[..n], row)
      case Err(error) => Err(error)
      case Ok(vs) =>
        match Scan(ScanType(columns[n]), row(columns[n]))
        case Err(error) => Err(error)
        case Ok(v) => Ok(vs + [v])
  }

  /** `scanValues`, the driver's scan, then `assignValues` on a blank entity. */
  function ReadRow(columns: seq<Column>, row: Row, codec: Codec): Result<Entity, ReadError>
  {
    match ScanRow(columns, row)
    case Err(error) => Err(error)
    case Ok(values) => Assigned(BLANK, columns, values, codec)
  }

  /** What a cell means for a field of a given shape. */
  function Decode(shape: Shape, cell: Cell, codec: Codec): Value {
    match cell
    case Null => ZeroOf(shape)
    case IntCell(n) => Int(n)
    case FloatCell(r) => Float(r)
    case BoolCell(b) => Bool(b)
    case TextCell(s) => Text(s)
    case TimeCell(t) => Time(t)
    case JsonCell(b) => if b == "" || codec.unmarshal(b).None? then ZeroOf(shape) else Document(codec.unmarshal(b).value)
  }

  function Meaning(c: Column, cell: Cell, codec: Codec): Value {
    Decode(FieldShape(c), cell, codec)
  }

  /** A cell the column's database type allows: NULL, or a value of that type, with valid JSON in a JSON column. */
  predicate FitsHolder(h: HolderType, cell: Cell, codec: Codec) {
    && Scan(h, cell).Ok?
    && (cell.JsonCell? && cell.bytes != "" ==> codec.unmarshal(cell.bytes).Some?)
  }

  /** A row of the accounts table. */
  ghost predicate FitsSchema(row: Row, codec: Codec) {
    forall c :: IsAccountColumn(c) ==> FitsHolder(ScanType(c), row(c), codec)
  }

  /** The two switches agree: what `scanValues` allocates is what `assignValues` expects. */
  lemma SwitchesAgree(c: Column)
    ensures IsAccountColumn(c) ==> FieldShape(c) != NotAField && FieldShape(c).holder == ScanType(c) != UnknownType
    ensures !IsAccountColumn(c) ==> FieldShape(c) == NotAField && ScanType(c) == UnknownType
  {
  }

  /** Whatever is stored, reading never fails on the type of a destination or on their number. */
  lemma {:induction false} NoTypeMismatch(columns: seq<Column>, row: Row, codec: Codec)
    ensures match ReadRow(columns, row, codec)
            case Ok(_) => true
            case Err(e) => e.ScanFailed? || e.BadJson?
    ensures ScanRow(columns, row).Err? ==> ScanRow(columns, row).error == ScanFailed
  {
    if columns != [] {
      var n := |columns| - 1;
      NoTypeMismatch(columns[..n], row, codec);
      if ScanRow(columns, row).Ok? {
        SameOnPrefix(BLANK, columns[..n], ScanRow(columns[..n], row).value, ScanRow(columns, row).value, codec);
        if ReadRow(columns[..n], row, codec).Ok? {
          ScannedFits(ReadRow(columns[..n], row, codec).value, columns[n], row(columns[n]), codec);
        }
      }
    }
  }

  lemma ScannedFits(e: Entity, c: Column, cell: Cell, codec: Codec)
    requires Scan(ScanType(c), cell).Ok?
    ensures var step := AssignOne(e, c, Scan(ScanType(c), cell).value, codec);
            step.Ok? || step.error.BadJson?
  {
    SwitchesAgree(c);
  }

  lemma {:induction false} SameOnPrefix(e: Entity, columns: seq<Column>, values: seq<Scanned>, more: seq<Scanned>, codec: Codec)
    requires |columns| <= |values| <= |more| && values == more[..|values|]
    ensures Assigned(e, columns, values, codec) == Assigned(e, columns, more, codec)
  {
    if columns != [] {
      SameOnPrefix(e, columns[..|columns|-1], values, more, codec);
    }
  }

  /** Reading any list of columns, in any order, gives their meaning, and zero to every other field. */
  lemma {:induction false} ReadIsProjection(columns: seq<Column>, row: Row, codec: Codec)
    requires FitsSchema(row, codec)
    ensures ReadRow(columns, row, codec).Ok?
    ensures var e := ReadRow(columns, row, codec).value;
            forall c :: IsAccountColumn(c) ==> e.Field(c) == if c in columns then Meaning(c, row(c), codec) else Zero(c)
  {
    if columns != [] {
      var n, c0 := |columns| - 1, columns[|columns|-1];
      assert columns == columns[..n] + [c0];
      ReadIsProjection(columns[..n], row, codec);
      StoreMeaning(ReadRow(columns[..n], row, codec).value, c0, row, codec);
      SameOnPrefix(BLANK, columns[..n], ScanRow(columns[..n], row).value, ScanRow(columns, row).value, codec);
    }
  }

  lemma StoreMeaning(e: Entity, c: Column, row: Row, codec: Codec)
    requires FitsSchema(row, codec)
    requires IsAccountColumn(c) ==> e.Field(c) == Zero(c) || e.Field(c) == Meaning(c, row(c), codec)
    ensures Scan(ScanType(c), row(c)).Ok?
    ensures var step := AssignOne(e, c, Scan(ScanType(c), row(c)).value, codec);
            && step.Ok?
            && (IsAccountColumn(c) ==> step.value.Field(c) == Meaning(c, row(c), codec))
            && (forall d :: IsAccountColumn(d) && d != c ==> step.value.Field(d) == e.Field(d))
  {
    SwitchesAgree(c);
    if IsAccountColumn(c) {
      StoreByShape(e, c, FieldShape(c), row(c), codec);
    }
  }

  lemma StoreByShape(e: Entity, c: Column, shape: Shape, cell: Cell, codec: Codec)
    requires shape != NotAField && shape.holder != UnknownType && FitsHolder(shape.holder, cell, codec)
    requires c == ID ==> shape == Plain(NullInt64)
    requires c !in e.stored || e.stored[c] == ZeroOf(shape) || e.stored[c] == Decode(shape, cell, codec)
    ensures var step := AssignField(e, c, shape, Scan(shape.holder, cell).value, codec);
            && step.Ok?
            && (if c in step.value.stored then step.value.stored[c] else ZeroOf(shape)) == Decode(shape, cell, codec)
            && (forall d :: d != c ==> (d in step.value.stored <==> d in e.stored))
            && (forall d :: d != c && d in e.stored ==> step.value.stored[d] == e.stored[d])
  {
  }
}
