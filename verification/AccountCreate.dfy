/** Creating one Account: defaults, checks, the insert specification, and reading the row back. */
module AccountCreation {
  import opened Prelude
  import opened AccountSchema

  type Values = map<Column, Value>

  /** A mutation: the fields set so far, and the ids set on each edge. */
  datatype Mutation = Mutation(values: Values, proxy: Option<int>, groups: set<int>, usageLogs: set<int>)

  /** User-defined validators; true means the value is accepted. */
  datatype Validators = Validators(
    name: Value -> bool, platform: Value -> bool, kind: Value -> bool, status: Value -> bool, sessionWindowStatus: Value -> bool)

  // ---------- Field types ----------

  datatype FieldType = TypeTime | TypeString | TypeJSON | TypeInt | TypeFloat64 | TypeBool | NoField

  /** The type `createSpec` gives each column; the id and the proxy foreign key are not plain fields. */
  function TypeOf(c: Column): FieldType {
    match c
    case CREATED_AT => TypeTime
    case UPDATED_AT => TypeTime
    case DELETED_AT => TypeTime
    case NAME => TypeString
    case NOTES => TypeString
    case PLATFORM => TypeString
    case TYPE => TypeString
    case CREDENTIALS => TypeJSON
    case EXTRA => TypeJSON
    case CONCURRENCY => TypeInt
    case LOAD_FACTOR => TypeInt
    case PRIORITY => TypeInt
    case RATE_MULTIPLIER => TypeFloat64
    case STATUS => TypeString
    case ERROR_MESSAGE => TypeString
    case LAST_USED_AT => TypeTime
    case EXPIRES_AT => TypeTime
    case AUTO_PAUSE_ON_EXPIRED => TypeBool
    case SCHEDULABLE => TypeBool
    case RATE_LIMITED_AT => TypeTime
    case RATE_LIMIT_RESET_AT => TypeTime
    case OVERLOAD_UNTIL => TypeTime
    case TEMP_UNSCHEDULABLE_UNTIL => TypeTime
    case TEMP_UNSCHEDULABLE_REASON => TypeString
    case SESSION_WINDOW_START => TypeTime
    case SESSION_WINDOW_END => TypeTime
    case SESSION_WINDOW_STATUS => TypeString
    case _ => NoField
  }

  predicate Fits(t: FieldType, v: Value) {
    match t
    case TypeTime => v.Time?
    case TypeString => v.Text?
    case TypeJSON => v.Document?
    case TypeInt => v.Int?
    case TypeFloat64 => v.Float?
    case TypeBool => v.Bool?
    case NoField => false
  }

  /** What the typed setters of the mutation guarantee. */
  ghost predicate WellTyped(values: Values) {
    forall c :: c in values ==> Fits(TypeOf(c), values[c])
  }

  // ---------- Defaults ----------

  /** The column each block of `defaults` fills, in order. */
  function DefaultAt(n: nat): Column {
    match n
    case 0 => CREATED_AT case 1 => UPDATED_AT case 2 => CREDENTIALS case 3 => EXTRA case 4 => CONCURRENCY
    case 5 => PRIORITY case 6 => RATE_MULTIPLIER case 7 => STATUS case 8 => AUTO_PAUSE_ON_EXPIRED case _ => SCHEDULABLE
  }

  const DEFAULT_COUNT := 10

  /** Which block fills a column; other columns have no default. */
  function DefaultRank(c: Column): (n: nat)
    ensures n < DEFAULT_COUNT ==> DefaultAt(n) == c
  {
    match c
    case CREATED_AT => 0 case UPDATED_AT => 1 case CREDENTIALS => 2 case EXTRA => 3 case CONCURRENCY => 4
    case PRIORITY => 5 case RATE_MULTIPLIER => 6 case STATUS => 7 case AUTO_PAUSE_ON_EXPIRED => 8 case SCHEDULABLE => 9
    case _ => DEFAULT_COUNT
  }

  predicate HasDefault(c: Column) {
    DefaultRank(c) < DEFAULT_COUNT
  }

  /** The first four defaults are functions the runtime package may have left uninitialised. */
  predicate Registered(env: Values) {
    && CONCURRENCY in env && PRIORITY in env && RATE_MULTIPLIER in env
    && STATUS in env && AUTO_PAUSE_ON_EXPIRED in env && SCHEDULABLE in env
  }

  /** The fields once the first `n` blocks have run. */
  function Filled(env: Values, base: Values, n: nat): Values
    decreases env, n
  {
    if n == 0 then base
    else
      var before, c := Filled(env, base, n - 1), DefaultAt(n - 1);
      if c in before || c !in env then before else before[c := env[c]]
  }

  /** The first column `defaults` can neither find set nor fill. */
  function Uninitialized(env: Values, base: Values): Option<Column> {
    if CREATED_AT !in base && CREATED_AT !in env then Some(CREATED_AT)
    else if UPDATED_AT !in base && UPDATED_AT !in env then Some(UPDATED_AT)
    else if CREDENTIALS !in base && CREDENTIALS !in env then Some(CREDENTIALS)
    else if EXTRA !in base && EXTRA !in env then Some(EXTRA)
    else None
  }

  /** The fields `defaults` leaves, whether or not it fails. */
  function Defaulted(env: Values, base: Values): Values {
    Filled(env, base, match Uninitialized(env, base) case None => DEFAULT_COUNT case Some(c) => DefaultRank(c))
  }

  // ---------- Check ----------

  datatype Invalid = Missing(c: Column) | Rejected(c: Column)

  /** The required fields, then the validators, in the order of the generated code. */
  function Check(values: Values, v: Validators): Option<Invalid> {
    if CREATED_AT !in values then Some(Missing(CREATED_AT))
    else if UPDATED_AT !in values then Some(Missing(UPDATED_AT))
    else if NAME !in values then Some(Missing(NAME))
    else if !v.name(values[NAME]) then Some(Rejected(NAME))
    else if PLATFORM !in values then Some(Missing(PLATFORM))
    else if !v.platform(values[PLATFORM]) then Some(Rejected(PLATFORM))
    else if TYPE !in values then Some(Missing(TYPE))
    else if !v.kind(values[TYPE]) then Some(Rejected(TYPE))
    else if CREDENTIALS !in values then Some(Missing(CREDENTIALS))
    else if EXTRA !in values then Some(Missing(EXTRA))
    else if CONCURRENCY !in values then Some(Missing(CONCURRENCY))
    else if PRIORITY !in values then Some(Missing(PRIORITY))
    else if RATE_MULTIPLIER !in values then Some(Missing(RATE_MULTIPLIER))
    else if STATUS !in values then Some(Missing(STATUS))
    else if !v.status(values[STATUS]) then Some(Rejected(STATUS))
    else if AUTO_PAUSE_ON_EXPIRED !in values then Some(Missing(AUTO_PAUSE_ON_EXPIRED))
    else if SCHEDULABLE !in values then Some(Missing(SCHEDULABLE))
    else if SESSION_WINDOW_STATUS in values && !v.sessionWindowStatus(values[SESSION_WINDOW_STATUS]) then Some(Rejected(SESSION_WINDOW_STATUS))
    else None
  }

  ghost predicate ValidatorsAccept(values: Values, v: Validators) {
    && (NAME in values ==> v.name(values[NAME]))
    && (PLATFORM in values ==> v.platform(values[PLATFORM]))
    && (TYPE in values ==> v.kind(values[TYPE]))
    && (STATUS in values ==> v.status(values[STATUS]))
    && (SESSION_WINDOW_STATUS in values ==> v.sessionWindowStatus(values[SESSION_WINDOW_STATUS]))
  }

  predicate Required(c: Column) {
    match c
    case CREATED_AT | UPDATED_AT | NAME | PLATFORM | TYPE | CREDENTIALS | EXTRA | CONCURRENCY | PRIORITY | RATE_MULTIPLIER
       | STATUS | AUTO_PAUSE_ON_EXPIRED | SCHEDULABLE => true
    case _ => false
  }

  /** The required columns are the fields that are not pointers; the database supplies the id. */
  lemma RequiredIsPlain(c: Column)
    ensures Required(c) <==> c != ID && FieldShape(c).Plain?
  {
  }

  lemma RequiredOrDefaulted(c: Column)
    ensures Required(c) <==> HasDefault(c) || c == NAME || c == PLATFORM || c == TYPE
  {
  }

  /** `check` accepts exactly the mutations that set every required field and satisfy the validators. */
  lemma CheckIsExact(values: Values, v: Validators)
    ensures Check(values, v) == None <==> (forall c :: Required(c) ==> c in values) && ValidatorsAccept(values, v)
  {
    assert Required(CREATED_AT) && Required(UPDATED_AT) && Required(NAME) && Required(PLATFORM) && Required(TYPE);
    assert Required(CREDENTIALS) && Required(EXTRA) && Required(CONCURRENCY) && Required(PRIORITY);
    assert Required(RATE_MULTIPLIER) && Required(STATUS) && Required(AUTO_PAUSE_ON_EXPIRED) && Required(SCHEDULABLE);
  }

  lemma {:induction false} FilledContents(env: Values, base: Values, n: nat)
    requires n <= DEFAULT_COUNT
    ensures forall c :: c in Filled(env, base, n) <==> c in base || (c in env && DefaultRank(c) < n)
    ensures forall c :: c in Filled(env, base, n) ==> Filled(env, base, n)[c] == if c in base then base[c] else env[c]
  {
    if n > 0 {
      FilledContents(env, base, n - 1);
      RankOfDefault(n - 1);
    }
  }

  lemma NotFilledBefore(env: Values, base: Values, n: nat)
    requires n < DEFAULT_COUNT
    ensures DefaultAt(n) in Filled(env, base, n) <==> DefaultAt(n) in base
  {
    FilledContents(env, base, n);
    RankOfDefault(n);
  }

  lemma RankOfDefault(n: nat)
    requires n < DEFAULT_COUNT
    ensures DefaultRank(DefaultAt(n)) == n
    ensures forall c :: DefaultRank(c) == n ==> c == DefaultAt(n)
  {
  }

  /** Ignoring the error of `defaults` is harmless: `check` then fails on the column it stopped at. */
  lemma FailedDefaultsFailCheck(env: Values, base: Values, v: Validators)
    requires Uninitialized(env, base).Some?
    ensures Check(Defaulted(env, base), v).Some?
  {
    var c := Uninitialized(env, base).value;
    FilledContents(env, base, DefaultRank(c));
    CheckIsExact(Defaulted(env, base), v);
    assert Required(c) && c !in Defaulted(env, base);
  }

  lemma DefaultIsAvailable(env: Values, base: Values, n: nat)
    requires Registered(env) && Uninitialized(env, base) == None && n < DEFAULT_COUNT
    ensures DefaultAt(n) in base || DefaultAt(n) in env
  {
  }

  lemma EveryDefaultIsFilled(env: Values, base: Values, c: Column)
    requires Registered(env) && Uninitialized(env, base) == None && HasDefault(c)
    ensures c in Defaulted(env, base)
  {
    FilledContents(env, base, DEFAULT_COUNT);
    DefaultIsAvailable(env, base, DefaultRank(c));
  }

  /** Defaults that succeed keep what was set, and set nothing but columns that have a default. */
  lemma DefaultsKeepWhatWasSet(env: Values, base: Values)
    requires Uninitialized(env, base) == None
    ensures var full := Defaulted(env, base);
            && (forall c :: c in base ==> c in full && full[c] == base[c])
            && (forall c :: c in full && c !in base ==> HasDefault(c) && c in env && full[c] == env[c])
  {
    FilledContents(env, base, DEFAULT_COUNT);
  }

  /** Running the defaults again changes nothing. */
  lemma DefaultsAreIdempotent(env: Values, base: Values)
    requires Registered(env) && Uninitialized(env, base) == None
    ensures Uninitialized(env, Defaulted(env, base)) == None
    ensures Defaulted(env, Defaulted(env, base)) == Defaulted(env, base)
  {
    var full := Defaulted(env, base);
    forall c | HasDefault(c) ensures c in full {
      EveryDefaultIsFilled(env, base, c);
    }
    NothingToFill(env, full, DEFAULT_COUNT);
    assert HasDefault(CREATED_AT) && HasDefault(UPDATED_AT) && HasDefault(CREDENTIALS) && HasDefault(EXTRA);
  }

  lemma {:induction false} NothingToFill(env: Values, full: Values, n: nat)
    requires n <= DEFAULT_COUNT && forall c :: HasDefault(c) ==> c in full
    ensures Filled(env, full, n) == full
  {
    if n > 0 {
      NothingToFill(env, full, n - 1);
      RankOfDefault(n - 1);
      assert HasDefault(DefaultAt(n - 1));
    }
  }

  /** After defaults that succeed, only name, platform and type, or a validator, can make `check` fail. */
  lemma DefaultsLeaveThreeColumns(env: Values, base: Values, v: Validators)
    requires Registered(env) && Uninitialized(env, base) == None
    ensures Check(Defaulted(env, base), v) == None <==>
            NAME in base && PLATFORM in base && TYPE in base && ValidatorsAccept(Defaulted(env, base), v)
  {
    var full := Defaulted(env, base);
    DefaultsKeepWhatWasSet(env, base);
    CheckIsExact(full, v);
    forall c | Required(c) ensures c in full || c == NAME || c == PLATFORM || c == TYPE {
      RequiredOrDefaulted(c);
      if HasDefault(c) { EveryDefaultIsFilled(env, base, c); }
    }
    assert Required(NAME) && Required(PLATFORM) && Required(TYPE);
    assert !HasDefault(NAME) && !HasDefault(PLATFORM) && !HasDefault(TYPE);
  }

  class AccountCreate {
    var values: Values
    var proxy: Option<int>
    var groups: set<int>
    var usageLogs: set<int>

    constructor (m: Mutation)
      ensures Pending() == m
    {
      values, proxy, groups, usageLogs := m.values, m.proxy, m.groups, m.usageLogs;
    }

    function Pending(): Mutation
      reads this
    {
      Mutation(values, proxy, groups, usageLogs)
    }

    /** What a hook makes of the mutation. */
    method Become(m: Mutation)
      modifies this
      ensures Pending() == m
    {
      values, proxy, groups, usageLogs := m.values, m.proxy, m.groups, m.usageLogs;
    }

    /** One `if _, ok := mutation.X(); !ok` block of `defaults`. */
    method SetDefault(env: Values, c: Column, ghost base: Values, ghost n: nat) returns (ok: bool)
      requires n < DEFAULT_COUNT && c == DefaultAt(n) && values == Filled(env, base, n)
      modifies `values
      ensures ok <==> c in base || c in env
      ensures ok ==> values == Filled(env, base, n + 1)
      ensures !ok ==> values == old(values)
    {
      NotFilledBefore(env, base, n);
      ok := true;
      if c !in values {
        if c !in env {
          return false;
        }
        values := values[c := env[c]];
      }
    }

    method Defaults(env: Values) returns (failed: Option<Column>)
      requires Registered(env)
      modifies `values
      ensures failed == Uninitialized(env, old(values))
      ensures values == Defaulted(env, old(values))
    {
      ghost var base := values;
      var ok := SetDefault(env, CREATED_AT, base, 0);
      if !ok { return Some(CREATED_AT); }
      ok := SetDefault(env, UPDATED_AT, base, 1);
      if !ok { return Some(UPDATED_AT); }
      ok := SetDefault(env, CREDENTIALS, base, 2);
      if !ok { return Some(CREDENTIALS); }
      ok := SetDefault(env, EXTRA, base, 3);
      if !ok { return Some(EXTRA); }
      ConstantDefaults(env, base);
      failed := None;
    }

    /** The defaults that are plain values and cannot be missing. */
    method ConstantDefaults(env: Values, ghost base: Values)
      requires Registered(env) && values == Filled(env, base, 4)
      modifies `values
      ensures values == Filled(env, base, DEFAULT_COUNT)
    {
      var ok := SetDefault(env, CONCURRENCY, base, 4);
      ok := SetDefault(env, PRIORITY, base, 5);
      ok := SetDefault(env, RATE_MULTIPLIER, base, 6);
      ok := SetDefault(env, STATUS, base, 7);
      ok := SetDefault(env, AUTO_PAUSE_ON_EXPIRED, base, 8);
      ok := SetDefault(env, SCHEDULABLE, base, 9);
    }

    /** One field of the specification, and of the entity, for each column set. */
    method CopyFields() returns (fields: seq<FieldSpec>, copied: Values)
      requires WellTyped(values)
      ensures fields == SpecFields(Columns(), values) && copied == values
    {
      var columns := Columns();
      fields, copied := [], map[];
      for i := 0 to |columns|
        invariant fields == SpecFields(columns[..i], values)
        invariant copied == OnColumns(values, columns[..i])
      {
        var c := columns[i];
        CopyStep(values, columns, i);
        if c in values {
          fields := fields + [FieldSpec(c, TypeOf(c), values[c])];
          copied := copied[c := values[c]];
        }
      }
      assert columns[..|columns|] == columns;
      AllAreColumns(values);
    }

    /** `createSpec`: the specification to insert, and the entity with the same fields. */
    method BuildSpec(setup: Setup) returns (spec: CreateSpec, node: Entity)
      requires WellTyped(values)
      ensures spec == SpecOf(Pending(), setup) && node == NodeOf(Pending())
    {
      var fields, copied := CopyFields();
      var edges: seq<EdgeSpec> := [];
      if groups != {} {
        edges := edges + [M2M(groups, JoinFields(setup.join))];
      }
      if proxy.Some? {
        edges := edges + [M2O(proxy.value)];
        copied := copied[PROXY_ID := Int(proxy.value)];
      }
      if usageLogs != {} {
        edges := edges + [O2M(usageLogs)];
      }
      spec, node := CreateSpec(fields, edges, setup.conflict), Entity(copied, map[]);
    }
  }

  function OnColumns(values: Values, columns: seq<Column>): Values {
    map c | c in values && c in columns :: values[c]
  }

  lemma CopyStep(values: Values, columns: seq<Column>, i: nat)
    requires i < |columns|
    ensures var c, before := columns[i], columns[..i];
            && OnColumns(values, columns[..i+1]) == (if c in values then OnColumns(values, before)[c := values[c]] else OnColumns(values, before))
            && SpecFields(columns[..i+1], values) ==
               SpecFields(before, values) + if c in values then [FieldSpec(c, TypeOf(c), values[c])] else []
  {
    assert columns[..i+1][..i] == columns[..i] && columns[..i+1] == columns[..i] + [columns[i]];
  }

  lemma AllAreColumns(values: Values)
    requires WellTyped(values)
    ensures OnColumns(values, Columns()) == values
  {
    forall c | c in values ensures c in Columns() {
      ColumnsAreComplete(c);
    }
  }

  // ---------- The insert specification ----------

  datatype FieldSpec = FieldSpec(column: Column, fieldType: FieldType, value: Value)

  /** The default priority and creation time of a row of the join table. */
  datatype JoinDefaults = JoinDefaults(priority: int, createdAt: int)

  /** The fields a many-to-many edge writes to the join table. */
  function JoinFields(d: JoinDefaults): seq<FieldSpec> {
    [FieldSpec(PRIORITY, TypeInt, Int(d.priority)), FieldSpec(CREATED_AT, TypeTime, Time(d.createdAt))]
  }

  /** What a builder brings besides its mutation: the join-table defaults and its conflict options, by name. */
  datatype Setup = Setup(join: JoinDefaults, conflict: seq<string>)

  /** An edge to write; the targets of a to-many edge come from a map, in no particular order. */
  datatype EdgeSpec = M2M(targets: set<int>, joinFields: seq<FieldSpec>) | M2O(target: int) | O2M(targets: set<int>)

  datatype CreateSpec = CreateSpec(fields: seq<FieldSpec>, edges: seq<EdgeSpec>, conflict: seq<string>)

  function SpecFields(columns: seq<Column>, values: Values): seq<FieldSpec> {
    if columns == [] then []
    else
      var c := columns[|columns|-1];
      SpecFields(columns[..|columns|-1], values) + if c in values then [FieldSpec(c, TypeOf(c), values[c])] else []
  }

  function SpecEdges(m: Mutation, d: JoinDefaults): seq<EdgeSpec> {
    (if m.groups != {} then [M2M(m.groups, JoinFields(d))] else []) +
    (if m.proxy.Some? then [M2O(m.proxy.value)] else []) +
    (if m.usageLogs != {} then [O2M(m.usageLogs)] else [])
  }

  function SpecOf(m: Mutation, setup: Setup): CreateSpec {
    CreateSpec(SpecFields(Columns(), m.values), SpecEdges(m, setup.join), setup.conflict)
  }

  /** The entity `createSpec` returns: every set field, and the proxy foreign key. */
  function NodeOf(m: Mutation): Entity {
    Entity(m.values + if m.proxy.Some? then map[PROXY_ID := Int(m.proxy.value)] else map[], map[])
  }

  // ---------- The stored row ----------

  function FieldIn(fields: seq<FieldSpec>, c: Column): Option<FieldSpec> {
    if fields == [] then None
    else if fields[|fields|-1].column == c then Some(fields[|fields|-1])
    else FieldIn(fields[..|fields|-1], c)
  }

  function Encode(f: FieldSpec, codec: Codec): Cell {
    match (f.fieldType, f.value)
    case (TypeTime, Time(t)) => TimeCell(t)
    case (TypeString, Text(s)) => TextCell(s)
    case (TypeJSON, Document(d)) => JsonCell(codec.marshal(d))
    case (TypeInt, Int(n)) => IntCell(n)
    case (TypeFloat64, Float(r)) => FloatCell(r)
    case (TypeBool, Bool(b)) => BoolCell(b)
    case _ => Null
  }

  function ForeignKeyIn(edges: seq<EdgeSpec>): Option<int> {
    if edges == [] then None
    else if edges[|edges|-1].M2O? then Some(edges[|edges|-1].target)
    else ForeignKeyIn(edges[..|edges|-1])
  }

  /** The cell an insert writes: the id, the foreign key, a given field, NULL for a nullable column left
      out, and whatever the table supplies for any other column left out. */
  ghost function StoredCell(spec: CreateSpec, id: int, tableDefault: Row, codec: Codec, c: Column): Cell {
    if c == ID then IntCell(id)
    else if c == PROXY_ID then
      match ForeignKeyIn(spec.edges)
      case None => Null
      case Some(k) => IntCell(k)
    else
      match FieldIn(spec.fields, c)
      case Some(f) => Encode(f, codec)
      case None => if FieldShape(c).Pointer? then Null else tableDefault(c)
  }

  lemma FieldAppend(fields: seq<FieldSpec>, f: FieldSpec, c: Column)
    ensures FieldIn(fields + [f], c) == if f.column == c then Some(f) else FieldIn(fields, c)
  {
    assert (fields + [f])[..|fields|] == fields;
  }

  lemma {:induction false} FieldInSpec(columns: seq<Column>, values: Values, c: Column)
    ensures FieldIn(SpecFields(columns, values), c) ==
            if c in columns && c in values then Some(FieldSpec(c, TypeOf(c), values[c])) else None
  {
    if columns != [] {
      var before, last := columns[..|columns|-1], columns[|columns|-1];
      assert columns == before + [last];
      FieldInSpec(before, values, c);
      var fields := SpecFields(before, values);
      if last in values {
        FieldAppend(fields, FieldSpec(last, TypeOf(last), values[last]), c);
      } else {
        assert SpecFields(columns, values) == fields;
      }
    }
  }

  lemma ForeignKeyInSpec(m: Mutation, setup: Setup)
    ensures ForeignKeyIn(SpecOf(m, setup).edges) == m.proxy
  {
    var groups := if m.groups != {} then [M2M(m.groups, JoinFields(setup.join))] else [];
    var proxy := if m.proxy.Some? then [M2O(m.proxy.value)] else [];
    var logs := if m.usageLogs != {} then [O2M(m.usageLogs)] else [];
    assert SpecEdges(m, setup.join) == groups + proxy + logs;
    if proxy != [] { ForeignKeyAppend(groups, proxy[0]); } else { assert groups + proxy == groups; }
    if logs != [] { ForeignKeyAppend(groups + proxy, logs[0]); } else { assert groups + proxy + logs == groups + proxy; }
  }

  lemma ForeignKeyAppend(edges: seq<EdgeSpec>, e: EdgeSpec)
    ensures ForeignKeyIn(edges + [e]) == if e.M2O? then Some(e.target) else ForeignKeyIn(edges)
  {
    assert (edges + [e])[..|edges|] == edges;
  }

  /** Types agree: what a field is stored as is what its column is scanned as. */
  lemma TypesAgree(c: Column)
    ensures TypeOf(c) != NoField ==> FieldShape(c) != NotAField && c != ID && c != PROXY_ID
    ensures match TypeOf(c)
            case TypeTime => ScanType(c) == NullTime
            case TypeString => ScanType(c) == NullString
            case TypeJSON => ScanType(c) == Bytes
            case TypeInt => ScanType(c) == NullInt64
            case TypeFloat64 => ScanType(c) == NullFloat64
            case TypeBool => ScanType(c) == NullBool
            case NoField => true
  {
  }

  /** The codec inverts the documents that are set. */
  ghost predicate InvertsOn(codec: Codec, values: Values) {
    forall c :: c in values && values[c].Document? ==> Inverts(codec, values[c].d)
  }

  /** Whatever documents are set, some codec inverts them. */
  lemma SomeCodecInverts(values: Values) returns (codec: Codec)
    requires WellTyped(values)
    ensures InvertsOn(codec, values)
  {
    var credentials := if CREDENTIALS in values then values[CREDENTIALS].d else NilMap;
    var extra := if EXTRA in values then values[EXTRA].d else NilMap;
    codec := Codec(d => if d == credentials then "c" else "e", text => Some(if text == "c" then credentials else extra));
    forall c | c in values && values[c].Document? ensures Inverts(codec, values[c].d) {
      assert Fits(TypeOf(c), values[c]);
      assert c == CREDENTIALS || c == EXTRA;
    }
  }

  lemma EncodeDecode(c: Column, t: FieldType, h: HolderType, shape: Shape, v: Value, codec: Codec)
    requires Fits(t, v) && (v.Document? ==> Inverts(codec, v.d))
    requires match t
             case TypeTime => h == NullTime
             case TypeString => h == NullString
             case TypeJSON => h == Bytes
             case TypeInt => h == NullInt64
             case TypeFloat64 => h == NullFloat64
             case TypeBool => h == NullBool
             case NoField => true
    ensures var cell := Encode(FieldSpec(c, t, v), codec);
            FitsHolder(h, cell, codec) && Decode(shape, cell, codec) == v
  {
  }

  lemma GivenFieldIsRead(m: Mutation, setup: Setup, id: int, tableDefault: Row, codec: Codec, c: Column)
    requires IsAccountColumn(c) && c in m.values && Fits(TypeOf(c), m.values[c])
    requires m.values[c].Document? ==> Inverts(codec, m.values[c].d)
    ensures ReadsBack(m, setup, id, tableDefault, codec, c)
  {
    TypesAgree(c);
    ColumnsAreComplete(c);
    FieldInSpec(Columns(), m.values, c);
    EncodeDecode(c, TypeOf(c), ScanType(c), FieldShape(c), m.values[c], codec);
  }

  lemma OmittedFieldIsRead(m: Mutation, setup: Setup, id: int, tableDefault: Row, codec: Codec, c: Column)
    requires IsAccountColumn(c) && c !in m.values && !Required(c) && c != ID && c != PROXY_ID
    ensures ReadsBack(m, setup, id, tableDefault, codec, c)
  {
    RequiredIsPlain(c);
    SwitchesAgree(c);
    FieldInSpec(Columns(), m.values, c);
    NullIsZero(FieldShape(c), ScanType(c), codec);
  }

  lemma NullIsZero(shape: Shape, h: HolderType, codec: Codec)
    ensures FitsHolder(h, Null, codec) && Decode(shape, Null, codec) == ZeroOf(shape)
  {
  }

  lemma KeysAreRead(m: Mutation, setup: Setup, id: int, tableDefault: Row, codec: Codec)
    requires ID !in m.values && PROXY_ID !in m.values
    ensures ReadsBack(m, setup, id, tableDefault, codec, ID)
    ensures ReadsBack(m, setup, id, tableDefault, codec, PROXY_ID)
  {
    IdIsRead(m, setup, id, tableDefault, codec);
    ForeignKeyIsRead(m, setup, id, tableDefault, codec);
  }

  lemma IdIsRead(m: Mutation, setup: Setup, id: int, tableDefault: Row, codec: Codec)
    ensures ReadsBack(m, setup, id, tableDefault, codec, ID)
  {
  }

  lemma ForeignKeyIsRead(m: Mutation, setup: Setup, id: int, tableDefault: Row, codec: Codec)
    requires PROXY_ID !in m.values
    ensures ReadsBack(m, setup, id, tableDefault, codec, PROXY_ID)
  {
    var spec := SpecOf(m, setup);
    ForeignKeyInSpec(m, setup);
    ForeignKeyCell(spec, id, tableDefault, codec, m.proxy);
    ForeignKeyCellReads(m, id, codec);
  }

  function KeyCell(proxy: Option<int>): Cell {
    match proxy case None => Null case Some(k) => IntCell(k)
  }

  lemma ForeignKeyCell(spec: CreateSpec, id: int, tableDefault: Row, codec: Codec, proxy: Option<int>)
    requires ForeignKeyIn(spec.edges) == proxy
    ensures StoredCell(spec, id, tableDefault, codec, PROXY_ID) == KeyCell(proxy)
  {
  }

  lemma ForeignKeyCellReads(m: Mutation, id: int, codec: Codec)
    requires PROXY_ID !in m.values
    ensures CellReads(m, id, codec, PROXY_ID, KeyCell(m.proxy))
  {
  }

  /** A cell fits the destination of its column and means the field `createSpec` returned. */
  ghost predicate CellReads(m: Mutation, id: int, codec: Codec, c: Column, cell: Cell) {
    FitsHolder(ScanType(c), cell, codec) && Meaning(c, cell, codec) == NodeOf(m).Set(ID, Int(id)).Field(c)
  }

  ghost predicate ReadsBack(m: Mutation, setup: Setup, id: int, tableDefault: Row, codec: Codec, c: Column) {
    CellReads(m, id, codec, c, StoredCell(SpecOf(m, setup), id, tableDefault, codec, c))
  }

  lemma KeysAreNotValues(m: Mutation)
    requires WellTyped(m.values)
    ensures ID !in m.values && PROXY_ID !in m.values
  {
  }

  lemma {:induction false} StoredFieldIsRead(m: Mutation, setup: Setup, v: Validators, id: int, tableDefault: Row, codec: Codec, c: Column)
    requires WellTyped(m.values) && Check(m.values, v) == None && InvertsOn(codec, m.values) && IsAccountColumn(c)
    ensures ReadsBack(m, setup, id, tableDefault, codec, c)
  {
    KeysAreNotValues(m);
    if c in m.values {
      GivenFieldIsRead(m, setup, id, tableDefault, codec, c);
    } else if c == PROXY_ID || c == ID {
      KeysAreRead(m, setup, id, tableDefault, codec);
    } else {
      CheckIsExact(m.values, v);
      OmittedFieldIsRead(m, setup, id, tableDefault, codec, c);
    }
  }

  /**
    Create and read round trip, with any codec that inverts the documents the mutation sets: whatever a
    checked mutation sets, whatever the table supplies for other
    columns, and in whatever order the columns are read back, reading gives the entity that
    `createSpec` returned, restricted to the columns selected.
   */
  lemma {:induction false} CreateReadRoundTrip(m: Mutation, setup: Setup, v: Validators, id: int, tableDefault: Row, codec: Codec, columns: seq<Column>)
    requires WellTyped(m.values) && Check(m.values, v) == None && InvertsOn(codec, m.values)
    ensures var read := ReadRow(columns, c => StoredCell(SpecOf(m, setup), id, tableDefault, codec, c), codec);
            && read.Ok?
            && (forall c :: IsAccountColumn(c) && c in columns ==> read.value.Field(c) == NodeOf(m).Set(ID, Int(id)).Field(c))
            && (forall c :: IsAccountColumn(c) && c !in columns ==> read.value.Field(c) == Zero(c))
  {
    var row: Row := c => StoredCell(SpecOf(m, setup), id, tableDefault, codec, c);
    forall c | IsAccountColumn(c)
      ensures FitsHolder(ScanType(c), row(c), codec)
      ensures Meaning(c, row(c), codec) == NodeOf(m).Set(ID, Int(id)).Field(c)
    {
      StoredFieldIsRead(m, setup, v, id, tableDefault, codec, c);
    }
    ReadIsProjection(columns, row, codec);
  }
}
