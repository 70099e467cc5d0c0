/** The generated JSON Schema of a capability entry, against the parser it documents. */
module CapabilitySchema {
  import opened Wrappers
  import opened JsonValues
  import opened Capabilities

  // ---- The part of JSON Schema that is used

  predicate TypeIs(name: string, v: Json) {
    || (name == "string" && v.String?)
    || (name == "array" && v.Array?)
    || (name == "object" && v.Object?)
  }

  predicate TypeOk(f: map<string, Json>, v: Json) {
    "type" in f ==> f["type"].String? && TypeIs(f["type"].text, v)
  }

  predicate ConstOk(f: map<string, Json>, v: Json) {
    "const" in f ==> f["const"] == v
  }

  predicate EnumOk(f: map<string, Json>, v: Json) {
    "enum" in f && f["enum"].Array? ==> v in f["enum"].items
  }

  predicate RequiredOk(f: map<string, Json>, v: Json) {
    "required" in f && f["required"].Array? && v.Object? ==>
      forall i :: 0 <= i < |f["required"].items| ==>
        f["required"].items[i].String? ==> f["required"].items[i].text in v.fields
  }

  function Properties(f: map<string, Json>): map<string, Json> {
    if "properties" in f && f["properties"].Object? then f["properties"].fields else map[]
  }

  predicate ClosedOk(f: map<string, Json>, v: Json) {
    "additionalProperties" in f && f["additionalProperties"] == Bool(false) && v.Object? ==>
      v.fields.Keys <= Properties(f).Keys
  }

  /** The keywords that do not look at other schemas. */
  predicate LocalOk(f: map<string, Json>, v: Json) {
    TypeOk(f, v) && ConstOk(f, v) && EnumOk(f, v) && RequiredOk(f, v) && ClosedOk(f, v)
  }

  /** Whether a value is valid against a schema; `oneOf` wants exactly one of its schemas to accept. */
  predicate Accepts(schema: Json, v: Json)
    decreases schema
  {
    && schema.Object?
    && var f := schema.fields;
    && LocalOk(f, v)
    && ("items" in f && v.Array? ==> forall i :: 0 <= i < |v.items| ==> Accepts(f["items"], v.items[i]))
    && ("properties" in f && f["properties"].Object? && v.Object? ==>
        forall k :: k in f["properties"].fields && k in v.fields ==>
          Accepts(f["properties"].fields[k], v.fields[k]))
    && ("oneOf" in f && f["oneOf"].Array? ==>
        AcceptsOne(f["oneOf"].items, v))
  }

  predicate AcceptsOne(schemas: seq<Json>, v: Json)
    decreases schemas
  {
    exists i :: 0 <= i < |schemas| && Accepts(schemas[i], v) &&
      (forall j :: 0 <= j < |schemas| && j != i ==> !Accepts(schemas[j], v))
  }

  // ---- The generated schema

  function PlainNames(names: seq<string>): (plain: seq<string>)
    ensures forall s :: s in plain <==> s in names && !HasArgs(s)
  {
    if names == [] then []
    else (if HasArgs(names[0]) then [] else [names[0]]) + PlainNames(names[1..])
  }

  function NameSchema(names: seq<string>): Json {
    Object(map["type" := String("string"), "enum" := Texts(names)])
  }

  function ConstSchema(kind: string): Json {
    Object(map["type" := String("string"), "const" := String(kind)])
  }

  const TEXT_SCHEMA: Json := Object(map["type" := String("string")])

  const LIST_SCHEMA: Json := Object(map["type" := String("array"), "items" := TEXT_SCHEMA])

  function ObjectSchema(required: seq<string>, properties: map<string, Json>): Json {
    Object(map[
      "type" := String("object"),
      "required" := Texts(required),
      "properties" := Object(properties),
      "additionalProperties" := Bool(false)])
  }

  function KindSchema(kind: string): Json {
    match ArgField(kind)
    case None => ObjectSchema(["type"], map["type" := ConstSchema(kind)])
    case Some(field) => ObjectSchema(["type", field], map["type" := ConstSchema(kind), field := LIST_SCHEMA])
  }

  /** The branches: bare names first, then one object per known name. */
  function Branches(names: seq<string>): seq<Json> {
    [NameSchema(PlainNames(names))] + KindSchemas(names)
  }

  function KindSchemas(names: seq<string>): (r: seq<Json>)
    ensures |r| == |names| && forall i :: 0 <= i < |r| ==> r[i] == KindSchema(names[i])
  {
    seq(|names|, i requires 0 <= i < |names| => KindSchema(names[i]))
  }

  /** The names are a parameter in what follows, so that no proof looks into the fourteen of them without need. */
  predicate AreKnown(names: seq<string>) {
    names == KNOWN_NAMES
  }

  function OneOf(branches: seq<Json>): Json {
    Object(map["oneOf" := Array(branches)])
  }

  /** Builds the schema branch by branch. */
  method SchemaFor(names: seq<string>) returns (schema: Json)
    ensures schema == OneOf(Branches(names))
  {
    ghost var branches := Branches(names);
    var oneOf := [NameSchema(PlainNames(names))];
    for i := 0 to |names|
      invariant |oneOf| == i + 1 && oneOf == branches[..|oneOf|]
    {
      var kind := names[i];
      var properties := map["type" := ConstSchema(kind)];
      var required := ["type"];
      if ArgField(kind).Some? {
        var field := ArgField(kind).value;
        properties := properties[field := LIST_SCHEMA];
        required := required + [field];
      }
      var branch := ObjectSchema(required, properties);
      KindSchemaParts(kind, required, properties);
      assert branch == branches[i + 1];
      oneOf := oneOf + [branch];
    }
    assert branches[..|branches|] == branches;
    schema := OneOf(oneOf);
  }

  /** The schema of one capability entry. */
  method ItemsJsonSchema() returns (schema: Json)
    ensures schema == OneOf(Branches(KNOWN_NAMES))
  {
    schema := SchemaFor(KNOWN_NAMES);
  }

  lemma KindSchemaParts(kind: string, required: seq<string>, properties: map<string, Json>)
    requires ArgField(kind).None? ==> required == ["type"] && properties == map["type" := ConstSchema(kind)]
    requires ArgField(kind).Some? ==>
      && required == ["type"] + [ArgField(kind).value]
      && properties == map["type" := ConstSchema(kind)][ArgField(kind).value := LIST_SCHEMA]
    ensures ObjectSchema(required, properties) == KindSchema(kind)
  {
    if ArgField(kind).Some? {
      var field := ArgField(kind).value;
      assert required == ["type", field];
      assert properties == map["type" := ConstSchema(kind), field := LIST_SCHEMA];
    }
  }

  // ---- What each branch accepts

  lemma NameAccepts(names: seq<string>, v: Json)
    ensures Accepts(NameSchema(names), v) <==> v.String? && v.text in names
  {
    var f := NameSchema(names).fields;
    if v.String? && v.text in names {
      var i :| 0 <= i < |names| && names[i] == v.text;
      assert f["enum"].items[i] == v;
    }
  }

  lemma ConstAccepts(kind: string, v: Json)
    ensures Accepts(ConstSchema(kind), v) <==> v == String(kind)
  {
  }

  lemma TextAccepts(v: Json)
    ensures Accepts(TEXT_SCHEMA, v) <==> v.String?
  {
  }

  lemma ListAccepts(v: Json)
    ensures Accepts(LIST_SCHEMA, v) <==> IsTextList(v)
  {
    if v.Array? {
      forall i | 0 <= i < |v.items|
        ensures Accepts(TEXT_SCHEMA, v.items[i]) <==> v.items[i].String?
      {
        TextAccepts(v.items[i]);
      }
      assert LIST_SCHEMA.fields["items"] == TEXT_SCHEMA;
    }
  }

  /** An object with exactly the fields its kind has. */
  predicate IsEntry(kind: string, v: Json) {
    && v.Object? && "type" in v.fields && v.fields["type"] == String(kind)
    && ListPresent(kind, v.fields) && NothingElse(kind, v.fields)
  }

  predicate NothingElse(kind: string, fields: map<string, Json>) {
    forall k :: k in fields ==> k == "type" || Some(k) == ArgField(kind)
  }

  lemma ObjectLocal(required: seq<string>, properties: map<string, Json>, v: Json)
    ensures LocalOk(ObjectSchema(required, properties).fields, v) <==>
      && v.Object?
      && (forall i :: 0 <= i < |required| ==> required[i] in v.fields)
      && (forall k :: k in v.fields ==> k in properties)
  {
    var f := ObjectSchema(required, properties).fields;
    var texts := f["required"].items;
    assert Properties(f) == properties;
    assert forall i :: 0 <= i < |required| ==> texts[i] == String(required[i]);
    assert "const" !in f && "enum" !in f;
  }

  lemma ObjectAccepts(required: seq<string>, properties: map<string, Json>, v: Json)
    ensures Accepts(ObjectSchema(required, properties), v) <==>
      && v.Object?
      && (forall i :: 0 <= i < |required| ==> required[i] in v.fields)
      && (forall k :: k in v.fields ==> k in properties && Accepts(properties[k], v.fields[k]))
  {
    var f := ObjectSchema(required, properties).fields;
    ObjectLocal(required, properties, v);
    assert "items" !in f && "oneOf" !in f && f["properties"].fields == properties;
  }

  lemma PlainKindAccepts(kind: string, v: Json)
    requires ArgField(kind).None?
    ensures Accepts(KindSchema(kind), v) <==> IsEntry(kind, v)
  {
    var properties := map["type" := ConstSchema(kind)];
    ObjectAccepts(["type"], properties, v);
    if v.Object? && "type" in v.fields { ConstAccepts(kind, v.fields["type"]); }
    assert ["type"][0] == "type";
  }

  lemma ListKindAccepts(kind: string, field: string, v: Json)
    requires ArgField(kind) == Some(field)
    ensures Accepts(KindSchema(kind), v) <==> IsEntry(kind, v)
  {
    var required, properties := ["type", field], map["type" := ConstSchema(kind), field := LIST_SCHEMA];
    ObjectAccepts(required, properties, v);
    assert required[0] == "type" && required[1] == field;
    assert field != "type";
    if v.Object? && "type" in v.fields { ConstAccepts(kind, v.fields["type"]); }
    if v.Object? && field in v.fields { ListAccepts(v.fields[field]); }
  }

  lemma KindAccepts(kind: string, v: Json)
    ensures Accepts(KindSchema(kind), v) <==> IsEntry(kind, v)
  {
    if ArgField(kind).Some? { ListKindAccepts(kind, ArgField(kind).value, v); } else { PlainKindAccepts(kind, v); }
  }

  /** What branch `i` is there for: the bare names of plain kinds, or the objects of one kind. */
  predicate Matches(names: seq<string>, i: nat, v: Json)
    requires i <= |names|
  {
    if i == 0 then v.String? && v.text in names && !HasArgs(v.text) else IsEntry(names[i - 1], v)
  }

  lemma BranchAccepts(names: seq<string>, i: nat, v: Json)
    requires i <= |names|
    ensures Accepts(Branches(names)[i], v) <==> Matches(names, i, v)
  {
    BranchAt(names, i);
    if i == 0 {
      NameAccepts(PlainNames(names), v);
    } else {
      KindAccepts(names[i - 1], v);
    }
  }

  lemma BranchAt(names: seq<string>, i: nat)
    requires i <= |names|
    ensures Branches(names)[i] == if i == 0 then NameSchema(PlainNames(names)) else KindSchema(names[i - 1])
  {
    var first, others := [NameSchema(PlainNames(names))], KindSchemas(names);
    assert Branches(names) == first + others;
  }

  /** The kind a branch stands for: the name itself for the bare form. */
  function BranchKind(names: seq<string>, i: nat, v: Json): (kind: string)
    requires i <= |names| && Matches(names, i, v)
    ensures kind in names
  {
    if i == 0 then v.text else names[i - 1]
  }

  predicate Distinct(names: seq<string>) {
    forall i, j :: 0 <= i < j < |names| ==> names[i] != names[j]
  }

  predicate MatchesOnly(names: seq<string>, i: nat, v: Json)
    requires i <= |names|
  {
    Matches(names, i, v) && forall j: nat :: j <= |names| && j != i ==> !Matches(names, j, v)
  }

  /** No value matches two branches. */
  lemma MatchesOne(names: seq<string>, i: nat, v: Json)
    requires Distinct(names) && i <= |names| && Matches(names, i, v)
    ensures MatchesOnly(names, i, v)
  {
  }

  lemma OneOfAccepts(branches: seq<Json>, v: Json)
    ensures Accepts(OneOf(branches), v) <==> AcceptsOne(branches, v)
  {
    OneOfOnly(branches, v);
    assert OneOf(branches).fields["oneOf"].items == branches;
  }

  /** Two accepting schemas are one too many. */
  lemma OneOfRefusesTwo(schemas: seq<Json>, i: nat, j: nat, v: Json)
    requires i < j < |schemas| && Accepts(schemas[i], v) && Accepts(schemas[j], v)
    ensures !Accepts(OneOf(schemas), v)
  {
    OneOfAccepts(schemas, v);
  }

  lemma OneOfOnly(branches: seq<Json>, v: Json)
    ensures var f := OneOf(branches).fields;
      LocalOk(f, v) && "items" !in f && "properties" !in f && "oneOf" in f
  {
    var f := OneOf(branches).fields;
    assert "type" !in f && "const" !in f && "enum" !in f && "required" !in f && "additionalProperties" !in f;
  }

  ghost predicate BranchesMean(names: seq<string>, branches: seq<Json>, v: Json) {
    && |branches| == |names| + 1
    && forall j :: 0 <= j <= |names| ==> (Accepts(branches[j], v) <==> Matches(names, j, v))
  }

  lemma BranchesAccept(names: seq<string>, v: Json)
    ensures BranchesMean(names, Branches(names), v)
  {
    forall i | 0 <= i <= |names|
      ensures Accepts(Branches(names)[i], v) <==> Matches(names, i, v)
    {
      BranchAccepts(names, i, v);
    }
  }

  lemma MatchAccepted(names: seq<string>, branches: seq<Json>, i: nat, v: Json)
    requires BranchesMean(names, branches, v) && i <= |names| && MatchesOnly(names, i, v)
    ensures AcceptsOne(branches, v)
  {
    assert Accepts(branches[i], v);
    forall j | 0 <= j < |branches| && j != i
      ensures !Accepts(branches[j], v)
    {
      assert !Matches(names, j, v);
    }
  }

  lemma AcceptedMatch(names: seq<string>, branches: seq<Json>, v: Json) returns (i: nat)
    requires Distinct(names) && BranchesMean(names, branches, v) && AcceptsOne(branches, v)
    ensures i <= |names| && MatchesOnly(names, i, v)
  {
    i :| 0 <= i < |branches| && Accepts(branches[i], v);
    MatchesOne(names, i, v);
  }

  lemma SchemaAccepts(names: seq<string>, v: Json)
    requires Distinct(names)
    ensures Accepts(OneOf(Branches(names)), v) <==> exists i: nat :: i <= |names| && MatchesOnly(names, i, v)
  {
    var branches := Branches(names);
    OneOfAccepts(branches, v);
    BranchesAccept(names, v);
    if AcceptsOne(branches, v) { var i := AcceptedMatch(names, branches, v); }
    if i: nat :| i <= |names| && MatchesOnly(names, i, v) { MatchAccepted(names, branches, i, v); }
  }

  // ---- Schema and parser

  /** What a branch matches parses to a capability of that branch's kind. */
  lemma MatchParses(names: seq<string>, i: nat, v: Json)
    requires AreKnown(names) && i <= |names| && Matches(names, i, v)
    ensures ParseValue(v).Ok? && Kind(ParseValue(v).capability) == BranchKind(names, i, v)
    ensures Exact(v)
  {
    var kind := BranchKind(names, i, v);
    ArgsIffField(kind);
    if i == 0 {
      FromTaggedIff(kind, map["type" := v]);
    } else {
      FromTaggedIff(kind, v.fields);
    }
  }

  /** Nothing but the fields of its own kind. */
  predicate Exact(v: Json) {
    v.Object? && "type" in v.fields && v.fields["type"].String? ==> NothingElse(v.fields["type"].text, v.fields)
  }

  lemma ParsedMatches(names: seq<string>, v: Json) returns (i: nat)
    requires AreKnown(names) && ParseValue(v).Ok? && Exact(v)
    ensures i <= |names| && Matches(names, i, v)
  {
    if v.String? {
      i := 0;
    } else {
      var kind := v.fields["type"].text;
      FromTaggedIff(kind, v.fields);
      var k :| 0 <= k < |names| && names[k] == kind;
      i := k + 1;
    }
  }

  lemma NamesDistinct(names: seq<string>)
    requires AreKnown(names)
    ensures Distinct(names)
  {
    forall i, j | 0 <= i < j < |names|
      ensures names[i] != names[j]
    {
      KnownNamesDistinct(i, j);
    }
  }

  /** The schema accepts exactly the values that parse and carry no extra field. */
  lemma SchemaIffParses(names: seq<string>, v: Json)
    requires AreKnown(names)
    ensures Accepts(OneOf(Branches(names)), v) <==> ParseValue(v).Ok? && Exact(v)
  {
    NamesDistinct(names);
    SchemaAccepts(names, v);
    if i: nat :| i <= |names| && MatchesOnly(names, i, v) {
      MatchParses(names, i, v);
    } else if ParseValue(v).Ok? && Exact(v) {
      var i := ParsedMatches(names, v);
      MatchesOne(names, i, v);
    }
  }

  /** An accepted value is accepted by one branch only and parses to a capability of that branch's kind. */
  lemma AcceptedByOneBranch(names: seq<string>, v: Json) returns (i: nat)
    requires AreKnown(names) && Accepts(OneOf(Branches(names)), v)
    ensures i <= |names| && Accepts(Branches(names)[i], v) && Matches(names, i, v)
    ensures forall j: nat :: j <= |names| && j != i ==> !Accepts(Branches(names)[j], v)
    ensures ParseValue(v).Ok? && Kind(ParseValue(v).capability) == BranchKind(names, i, v)
  {
    NamesDistinct(names);
    SchemaAccepts(names, v);
    i :| i <= |names| && MatchesOnly(names, i, v);
    MatchParses(names, i, v);
    forall j: nat | j <= |names|
      ensures Accepts(Branches(names)[j], v) <==> Matches(names, j, v)
    {
      BranchAccepts(names, j, v);
    }
  }

  lemma ReadsBack(c: Capability, fields: map<string, Json>)
    requires c != Unknown && fields == ArgFields(c)["type" := String(Kind(c))]
    ensures FromTagged(Kind(c), fields) == Some(c)
  {
    var kind := Kind(c);
    KnownKind(c);
    FieldsOf(c);
    ArgsIffField(kind);
    if HasArgs(kind) {
      TextListOf(Args(c).value);
      ListFromTagged(kind, fields);
    } else {
      PlainFromTagged(kind, fields);
    }
    KindAndArgs(c, FromTagged(kind, fields).value);
  }

  /** Every known capability is written as an accepted value and reads back as itself. */
  lemma WriteParses(names: seq<string>, c: Capability)
    requires AreKnown(names) && c != Unknown
    ensures Accepts(OneOf(Branches(names)), ToJson(c)) && ParseValue(ToJson(c)) == Ok(c)
  {
    var v := ToJson(c);
    KnownKind(c);
    WriteExact(c);
    ReadsBack(c, v.fields);
    assert ParseValue(v) == FromObject(Kind(c), v.fields);
    SchemaIffParses(names, v);
  }

  lemma WriteExact(c: Capability)
    requires c != Unknown
    ensures Exact(ToJson(c))
  {
    FieldsOf(c);
  }

  // ---- The form that crosses the plugin boundary

  /** JSON text: nothing, text of a value, or text that is no JSON. */
  datatype ArgsText = Empty | TextOf(value: Json) | Malformed

  datatype TypedCapabilityDecl = TypedCapabilityDecl(kind: string, args: ArgsText)

  function FromCapability(c: Capability): TypedCapabilityDecl {
    TypedCapabilityDecl(Kind(c), if Args(c).Some? then TextOf(Object(ArgFields(c))) else Empty)
  }

  function ToCapability(d: TypedCapabilityDecl): Parsed {
    if d.kind !in KNOWN_NAMES then Err(UnknownKind(d.kind))
    else
      match d.args
      case Malformed => Err(InvalidArgs(d.kind))
      case Empty => FromObject(d.kind, map["type" := String(d.kind)])
      case TextOf(Object(fields)) => FromObject(d.kind, fields["type" := String(d.kind)])
      case TextOf(_) => Err(InvalidEntry)
  }

  /** What crosses: the kind, and either no text at all or an object that holds the list alone, under its field. */
  lemma BoundaryWrites(c: Capability)
    requires c != Unknown
    ensures var d := FromCapability(c);
            && d.kind == Kind(c)
            && (Args(c).None? ==> d.args == Empty)
            && (Args(c).Some? ==> ArgField(d.kind).Some? &&
                                  d.args == TextOf(Object(map[ArgField(d.kind).value := Texts(Args(c).value)])))
  {
    FieldsOf(c);
  }

  /** A known capability survives the boundary; an unknown one is named as such. */
  lemma BoundaryRoundTrip(c: Capability)
    ensures ToCapability(FromCapability(c)) == if c == Unknown then Err(UnknownKind("unknown")) else Ok(c)
  {
    KnownKind(c);
    if c != Unknown {
      FieldsOf(c);
      ReadsBack(c, ArgFields(c)["type" := String(Kind(c))]);
    }
  }

  /** What an object of a known kind reads as: that kind with the list it holds, or an error when there is no such list. */
  lemma ObjectReads(kind: string, fields: map<string, Json>)
    requires kind in KNOWN_NAMES
    ensures FromObject(kind, fields).Ok? <==>
            (ArgField(kind).Some? ==> ArgField(kind).value in fields && IsTextList(fields[ArgField(kind).value]))
    ensures match FromObject(kind, fields)
            case Ok(c) => Kind(c) == kind && (ArgField(kind).None? ==> Args(c) == None) &&
                          (ArgField(kind).Some? ==> Args(c).Some? && Texts(Args(c).value) == fields[ArgField(kind).value])
            case Err(e) => e == InvalidArgs(kind)
  {
    ArgsIffField(kind);
    FromTaggedIff(kind, fields);
    if HasArgs(kind) { ListFromTagged(kind, fields); } else { PlainFromTagged(kind, fields); }
  }

  /** Where the arguments of a declaration stand: empty text counts as no fields at all. */
  function DeclaredFields(args: ArgsText): Option<map<string, Json>> {
    match args
    case Empty => Some(map[])
    case TextOf(Object(fields)) => Some(fields)
    case _ => None
  }

  /**
   * Every declaration: it reads exactly when its kind is known and its arguments are empty text for a kind without a
   * list, or an object that holds the list of its kind; then as that kind with that list.
   */
  lemma BoundaryReads(d: TypedCapabilityDecl)
    ensures ToCapability(d).Ok? <==>
            && d.kind in KNOWN_NAMES
            && match d.args
               case Empty => ArgField(d.kind) == None
               case Malformed => false
               case TextOf(v) =>
                 v.Object? && (ArgField(d.kind).Some? ==>
                                 ArgField(d.kind).value in v.fields && IsTextList(v.fields[ArgField(d.kind).value]))
    ensures ToCapability(d).Ok? ==>
            var c := ToCapability(d).capability;
            Kind(c) == d.kind && (ArgField(d.kind).None? ==> Args(c) == None) &&
            (ArgField(d.kind).Some? ==>
               Args(c).Some? && d.args.TextOf? && Texts(Args(c).value) == d.args.value.fields[ArgField(d.kind).value])
  {
    FieldIsNotType(d.kind);
    if d.kind in KNOWN_NAMES && DeclaredFields(d.args).Some? {
      ObjectReads(d.kind, DeclaredFields(d.args).value["type" := String(d.kind)]);
    }
  }

  lemma FieldIsNotType(kind: string)
    ensures ArgField(kind) != Some("type")
  {
  }

  /** And the error of every other: an unknown kind first, then no JSON, then no object, then a list that is not there. */
  lemma BoundaryErrors(d: TypedCapabilityDecl)
    requires ToCapability(d).Err?
    ensures ToCapability(d).error ==
            if d.kind !in KNOWN_NAMES then UnknownKind(d.kind)
            else if d.args.TextOf? && !d.args.value.Object? then InvalidEntry
            else InvalidArgs(d.kind)
  {
    if d.kind in KNOWN_NAMES && DeclaredFields(d.args).Some? {
      ObjectReads(d.kind, DeclaredFields(d.args).value["type" := String(d.kind)]);
    }
  }

  function Entry(kind: string, field: string, list: seq<string>): Json {
    Object(map["type" := String(kind), field := Texts(list)])
  }

  /** The five kinds with a list, each with its field. */
  lemma ListKinds(c: Capability, list: seq<string>)
    requires c in {FilesystemRead(list), FilesystemWrite(list), SecretsRead(list), CredentialIssue(list), ConfigRead(list)}
    ensures ParseValue(match c
                       case FilesystemRead(_) => Entry("filesystem_read", "paths", list)
                       case FilesystemWrite(_) => Entry("filesystem_write", "paths", list)
                       case SecretsRead(_) => Entry("secrets_read", "schemes", list)
                       case CredentialIssue(_) => Entry("credential_issue", "kinds", list)
                       case _ => Entry("config_read", "schemes", list)) == Ok(c)
  {
    EntryReads(c, ArgField(Kind(c)).value);
  }

  /** The nine kinds without one, each by its bare name. */
  lemma PlainKinds(c: Capability)
    requires Args(c).None? && c != Unknown
    ensures ParseValue(String(match c
                              case NetworkOutbound => "network_outbound"
                              case AuditWrite => "audit_write"
                              case MetricEmit => "metric_emit"
                              case ClusterPeerRead => "cluster_peer_read"
                              case ClusterLeadershipAcquire => "cluster_leadership_acquire"
                              case ClusterLockAcquire => "cluster_lock_acquire"
                              case HttpRouteServe => "http_route_serve"
                              case TransportListen => "transport_listen"
                              case _ => "unbounded_subscriptions")) == Ok(c)
  {
    NameReads(c);
  }

  lemma NameReads(c: Capability)
    requires c != Unknown && Args(c).None?
    ensures ParseValue(String(Kind(c))) == Ok(c)
  {
    KnownKind(c);
    FieldsOf(c);
    ArgsIffField(Kind(c));
    var fields := map["type" := String(Kind(c))];
    assert fields == ArgFields(c)["type" := String(Kind(c))];
    ReadsBack(c, fields);
  }

  lemma EntryReads(c: Capability, field: string)
    requires Args(c).Some? && ArgField(Kind(c)) == Some(field)
    ensures ParseValue(Entry(Kind(c), field, Args(c).value)) == Ok(c)
  {
    KnownKind(c);
    FieldsOf(c);
    FieldIsNotType(Kind(c));
    var fields := map["type" := String(Kind(c)), field := Texts(Args(c).value)];
    assert fields == ArgFields(c)["type" := String(Kind(c))];
    ReadsBack(c, fields);
  }

  /** Every text: a known kind without a list is read; a kind with one asks for its field; others are unknown. */
  lemma ParseText(s: string)
    ensures ParseValue(String(s)) ==
            if s !in KNOWN_NAMES then Err(UnknownKind(s))
            else match ArgField(s)
                 case Some(field) => Err(MissingArgs(s, field))
                 case None => ParseValue(Object(map["type" := String(s)]))
    ensures s in KNOWN_NAMES && ArgField(s) == None ==>
            ParseValue(String(s)).Ok? && Kind(ParseValue(String(s)).capability) == s
  {
    ArgsIffField(s);
    if s in KNOWN_NAMES { ObjectReads(s, map["type" := String(s)]); }
  }

  /** Every object: its `type` must be a known name, and the list of that kind must be there. */
  lemma ParseObject(fields: map<string, Json>)
    ensures var r := ParseValue(Object(fields));
            if "type" !in fields || !fields["type"].String? then r == Err(InvalidEntry)
            else
              var kind := fields["type"].text;
              if kind !in KNOWN_NAMES then r == Err(UnknownKind(kind))
              else if ArgField(kind).Some? && !(ArgField(kind).value in fields && IsTextList(fields[ArgField(kind).value]))
              then r == Err(InvalidArgs(kind))
              else
                r.Ok? && Kind(r.capability) == kind &&
                (if ArgField(kind).Some?
                 then Args(r.capability).Some? && Texts(Args(r.capability).value) == fields[ArgField(kind).value]
                 else Args(r.capability) == None)
  {
    if "type" in fields && fields["type"].String? && fields["type"].text in KNOWN_NAMES {
      ObjectReads(fields["type"].text, fields);
    }
  }

  /** Anything else is no capability entry. */
  lemma ParseOther(v: Json)
    requires !v.String? && !v.Object?
    ensures ParseValue(v) == Err(InvalidEntry)
  {
  }

  /** Both readers agree: a declaration reads as the loose object with its kind as `type`. */
  lemma BoundaryIsParse(kind: string, fields: map<string, Json>)
    ensures ToCapability(TypedCapabilityDecl(kind, TextOf(Object(fields)))) ==
            ParseValue(Object(fields["type" := String(kind)]))
  {
  }

  /** A declaration reads as a capability of its own kind, whatever `type` its arguments claim. */
  lemma BoundaryKeepsKind(d: TypedCapabilityDecl)
    requires ToCapability(d).Ok?
    ensures Kind(ToCapability(d).capability) == d.kind
  {
    match d.args
    case Empty => FromTaggedIff(d.kind, map["type" := String(d.kind)]);
    case TextOf(Object(fields)) => FromTaggedIff(d.kind, fields["type" := String(d.kind)]);
  }
}
