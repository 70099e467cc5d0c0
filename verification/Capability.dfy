/** Capabilities, the loose form operators write them in, and the form they cross the plugin boundary in. */
module Capabilities {
  import opened Wrappers
  import opened JsonValues

  datatype Capability =
    | NetworkOutbound
    | FilesystemRead(paths: seq<string>)
    | FilesystemWrite(paths: seq<string>)
    | SecretsRead(schemes: seq<string>)
    | CredentialIssue(kinds: seq<string>)
    | ConfigRead(schemes: seq<string>)
    | AuditWrite
    | MetricEmit
    | ClusterPeerRead
    | ClusterLeadershipAcquire
    | ClusterLockAcquire
    | HttpRouteServe
    | TransportListen
    | UnboundedSubscriptions
    | Unknown

  datatype ParseError =
    | UnknownKind(kind: string)
    | MissingArgs(kind: string, missing: string)
    | InvalidArgs(kind: string)
    | InvalidEntry

  datatype Parsed = Ok(capability: Capability) | Err(error: ParseError)

  function Kind(c: Capability): string {
    match c
    case NetworkOutbound => "network_outbound"
    case FilesystemRead(_) => "filesystem_read"
    case FilesystemWrite(_) => "filesystem_write"
    case SecretsRead(_) => "secrets_read"
    case CredentialIssue(_) => "credential_issue"
    case ConfigRead(_) => "config_read"
    case AuditWrite => "audit_write"
    case MetricEmit => "metric_emit"
    case ClusterPeerRead => "cluster_peer_read"
    case ClusterLeadershipAcquire => "cluster_leadership_acquire"
    case ClusterLockAcquire => "cluster_lock_acquire"
    case HttpRouteServe => "http_route_serve"
    case TransportListen => "transport_listen"
    case UnboundedSubscriptions => "unbounded_subscriptions"
    case Unknown => "unknown"
  }

  const KNOWN_NAMES: seq<string> := [
    "audit_write", "cluster_leadership_acquire", "cluster_lock_acquire", "cluster_peer_read", "config_read",
    "credential_issue", "filesystem_read", "filesystem_write", "http_route_serve", "metric_emit", "network_outbound",
    "secrets_read", "transport_listen", "unbounded_subscriptions"
  ]

  predicate HasArgs(kind: string) {
    || kind == "filesystem_read" || kind == "filesystem_write" || kind == "secrets_read"
    || kind == "credential_issue" || kind == "config_read"
  }

  /** The field that carries the argument list of a kind. */
  function ArgField(kind: string): Option<string> {
    if kind == "filesystem_read" || kind == "filesystem_write" then Some("paths")
    else if kind == "secrets_read" || kind == "config_read" then Some("schemes")
    else if kind == "credential_issue" then Some("kinds")
    else None
  }

  // ---- Reading the tagged object form

  predicate IsTextList(v: Json) {
    v.Array? && forall i :: 0 <= i < |v.items| ==> v.items[i].String?
  }

  function TextList(v: Json): (r: Option<seq<string>>)
    ensures r.Some? <==> IsTextList(v)
    ensures r.Some? ==> Texts(r.value) == v
  {
    if IsTextList(v) then
      Some(seq(|v.items|, i requires 0 <= i < |v.items| => v.items[i].text))
    else None
  }

  function Texts(list: seq<string>): (v: Json)
    ensures IsTextList(v) && |v.items| == |list|
    ensures forall i :: 0 <= i < |list| ==> v.items[i] == String(list[i])
  {
    Array(seq(|list|, i requires 0 <= i < |list| => String(list[i])))
  }

  function ListField(fields: map<string, Json>, field: string): Option<seq<string>> {
    if field in fields then TextList(fields[field]) else None
  }

  /** The variants without fields; any other tag falls into `Unknown`. */
  function PlainVariant(kind: string): Capability {
    if kind == "network_outbound" then NetworkOutbound
    else if kind == "audit_write" then AuditWrite
    else if kind == "metric_emit" then MetricEmit
    else if kind == "cluster_peer_read" then ClusterPeerRead
    else if kind == "cluster_leadership_acquire" then ClusterLeadershipAcquire
    else if kind == "cluster_lock_acquire" then ClusterLockAcquire
    else if kind == "http_route_serve" then HttpRouteServe
    else if kind == "transport_listen" then TransportListen
    else if kind == "unbounded_subscriptions" then UnboundedSubscriptions
    else Unknown
  }

  /** Deserialising a tagged object; fields that are not asked for are ignored. */
  function FromTagged(kind: string, fields: map<string, Json>): Option<Capability> {
    if kind == "filesystem_read" then var list :- ListField(fields, "paths"); Some(FilesystemRead(list))
    else if kind == "filesystem_write" then var list :- ListField(fields, "paths"); Some(FilesystemWrite(list))
    else if kind == "secrets_read" then var list :- ListField(fields, "schemes"); Some(SecretsRead(list))
    else if kind == "credential_issue" then var list :- ListField(fields, "kinds"); Some(CredentialIssue(list))
    else if kind == "config_read" then var list :- ListField(fields, "schemes"); Some(ConfigRead(list))
    else Some(PlainVariant(kind))
  }

  /** Deserialising the object form with its `type` already known. */
  function FromObject(kind: string, fields: map<string, Json>): Parsed {
    match FromTagged(kind, fields)
    case Some(c) => Ok(c)
    case None => Err(InvalidArgs(kind))
  }

  function ParseValue(v: Json): Parsed {
    match v
    case String(s) =>
      if s !in KNOWN_NAMES then Err(UnknownKind(s))
      else if HasArgs(s) then Err(MissingArgs(s, if ArgField(s).Some? then ArgField(s).value else "args"))
      else FromObject(s, map["type" := v])
    case Object(fields) =>
      if "type" !in fields || !fields["type"].String? then Err(InvalidEntry)
      else
        var kind := fields["type"].text;
        if kind !in KNOWN_NAMES then Err(UnknownKind(kind)) else FromObject(kind, fields)
    case _ => Err(InvalidEntry)
  }

  // ---- Names

  lemma KnownIff(kind: string)
    ensures kind in KNOWN_NAMES <==>
      || kind == "audit_write" || kind == "cluster_leadership_acquire" || kind == "cluster_lock_acquire"
      || kind == "cluster_peer_read" || kind == "config_read" || kind == "credential_issue"
      || kind == "filesystem_read" || kind == "filesystem_write" || kind == "http_route_serve"
      || kind == "metric_emit" || kind == "network_outbound" || kind == "secrets_read"
      || kind == "transport_listen" || kind == "unbounded_subscriptions"
  {
  }

  /** Length and first letter tell the known names apart. */
  function Signature(kind: string): (nat, char) {
    (|kind|, if kind == [] then ' ' else kind[0])
  }

  const SIGNATURES: seq<(nat, char)> := [
    (11, 'a'), (26, 'c'), (20, 'c'), (17, 'c'), (11, 'c'), (16, 'c'), (15, 'f'), (16, 'f'), (16, 'h'), (11, 'm'),
    (16, 'n'), (12, 's'), (16, 't'), (23, 'u')
  ]

  lemma KnownSignatures()
    ensures |KNOWN_NAMES| == |SIGNATURES|
    ensures forall i :: 0 <= i < |KNOWN_NAMES| ==> Signature(KNOWN_NAMES[i]) == SIGNATURES[i]
  {
  }

  lemma KnownNamesDistinct(i: nat, j: nat)
    requires i < j < |KNOWN_NAMES|
    ensures KNOWN_NAMES[i] != KNOWN_NAMES[j]
  {
    KnownSignatures();
    assert SIGNATURES[i] != SIGNATURES[j];
  }

  /** The two tables over kinds agree. */
  lemma ArgsIffField(kind: string)
    ensures HasArgs(kind) <==> ArgField(kind).Some?
  {
  }

  // ---- What reading gives

  function Args(c: Capability): Option<seq<string>> {
    match c
    case FilesystemRead(list) => Some(list)
    case FilesystemWrite(list) => Some(list)
    case SecretsRead(list) => Some(list)
    case CredentialIssue(list) => Some(list)
    case ConfigRead(list) => Some(list)
    case _ => None
  }

  lemma KnownPlain(kind: string)
    requires kind in KNOWN_NAMES && !HasArgs(kind)
    ensures PlainVariant(kind) != Unknown
  {
    KnownIff(kind);
  }

  lemma PlainKind(kind: string)
    requires PlainVariant(kind) != Unknown
    ensures Kind(PlainVariant(kind)) == kind && Args(PlainVariant(kind)) == None
  {
  }

  lemma PlainFromTagged(kind: string, fields: map<string, Json>)
    requires kind in KNOWN_NAMES && !HasArgs(kind)
    ensures FromTagged(kind, fields).Some?
    ensures Kind(FromTagged(kind, fields).value) == kind && Args(FromTagged(kind, fields).value) == None
  {
    KnownPlain(kind);
    PlainKind(kind);
    assert FromTagged(kind, fields) == Some(PlainVariant(kind));
  }

  lemma ListFromTagged(kind: string, fields: map<string, Json>)
    requires HasArgs(kind)
    ensures var list := ListField(fields, ArgField(kind).value);
      match FromTagged(kind, fields)
      case None => list.None?
      case Some(c) => Kind(c) == kind && Args(c) == list && list.Some?
  {
  }

  /** The list a kind needs, if it needs one, is among the fields. */
  predicate ListPresent(kind: string, fields: map<string, Json>) {
    ArgField(kind).Some? ==> ArgField(kind).value in fields && IsTextList(fields[ArgField(kind).value])
  }

  /** Reading the object form of a known kind gives a capability of that kind exactly when its list is there. */
  lemma FromTaggedIff(kind: string, fields: map<string, Json>)
    requires kind in KNOWN_NAMES
    ensures FromTagged(kind, fields).Some? <==> ListPresent(kind, fields)
    ensures FromTagged(kind, fields).Some? ==> Kind(FromTagged(kind, fields).value) == kind
  {
    ArgsIffField(kind);
    if HasArgs(kind) { ListFromTagged(kind, fields); } else { PlainFromTagged(kind, fields); }
  }

  // ---- Writing

  /** The fields of the object form besides `type`. */
  function ArgFields(c: Capability): map<string, Json> {
    match c
    case FilesystemRead(list) => map["paths" := Texts(list)]
    case FilesystemWrite(list) => map["paths" := Texts(list)]
    case SecretsRead(list) => map["schemes" := Texts(list)]
    case CredentialIssue(list) => map["kinds" := Texts(list)]
    case ConfigRead(list) => map["schemes" := Texts(list)]
    case _ => map[]
  }

  function ToJson(c: Capability): Json {
    Object(ArgFields(c)["type" := String(Kind(c))])
  }

  lemma TextListOf(list: seq<string>)
    ensures TextList(Texts(list)) == Some(list)
  {
    assert TextList(Texts(list)).value == list;
  }

  lemma KnownKind(c: Capability)
    ensures c != Unknown <==> Kind(c) in KNOWN_NAMES
  {
    KnownIff(Kind(c));
  }

  lemma FieldsOf(c: Capability)
    requires c != Unknown
    ensures ArgField(Kind(c)).Some? <==> Args(c).Some?
    ensures Args(c).Some? ==> ArgFields(c) == map[ArgField(Kind(c)).value := Texts(Args(c).value)]
    ensures Args(c).None? ==> ArgFields(c) == map[]
  {
  }

  /** A capability is told by its kind and its list. */
  lemma KindAndArgs(c: Capability, d: Capability)
    requires Kind(c) == Kind(d) && Args(c) == Args(d)
    ensures c == d
  {
  }
}
