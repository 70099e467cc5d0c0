/** `cred://<plugin_id>/<target>[#<part>]` references, parsed and rendered. */
module CredentialRef {
  import opened Wrappers
  import opened Text
  import opened CredentialTokens

  datatype CredRef = CredRef(pluginId: string, target: string, part: Option<string>) {
    function CacheKey(): (string, string) {
      (pluginId, target)
    }
  }

  function StripPrefix(s: string, prefix: string): Option<string> {
    if prefix <= s then Some(s[|prefix|..]) else None
  }

  function SplitPart(rest: string): Option<(string, Option<string>)> {
    match SplitOnce(rest, '#')
    case Some((p, frag)) => if frag != "" then Some((p, Some(frag))) else None
    case None => Some((rest, None))
  }

  function Parse(uri: string): Option<CredRef> {
    var rest :- StripPrefix(uri, CRED_SCHEME);
    var (path, part) :- SplitPart(rest);
    var (pluginId, target) :- SplitOnce(path, '/');
    if pluginId == "" || target == "" then None else Some(CredRef(pluginId, target, part))
  }

  function ToUri(r: CredRef): string {
    match r.part
    case Some(p) => CRED_SCHEME + r.pluginId + "/" + r.target + "#" + p
    case None => CRED_SCHEME + r.pluginId + "/" + r.target
  }

  predicate WellFormed(r: CredRef) {
    && r.pluginId != "" && '/' !in r.pluginId && '#' !in r.pluginId
    && r.target != "" && '#' !in r.target
    && (r.part.Some? ==> r.part.value != "")
  }

  /** The path of a reference, without scheme and part. */
  function Path(r: CredRef): string {
    r.pluginId + (['/'] + r.target)
  }

  lemma UriLayout(r: CredRef)
    ensures ToUri(r) == CRED_SCHEME + (Path(r) + if r.part.Some? then ['#'] + r.part.value else [])
  {
  }

  lemma StripBack(rest: string)
    ensures StripPrefix(CRED_SCHEME + rest, CRED_SCHEME) == Some(rest)
  {
  }

  lemma StripGives(uri: string)
    requires StripPrefix(uri, CRED_SCHEME).Some?
    ensures uri == CRED_SCHEME + StripPrefix(uri, CRED_SCHEME).value
  {
  }

  /** Parsing the rendering of a well-formed reference gives it back. */
  lemma ParseToUri(r: CredRef)
    requires WellFormed(r)
    ensures Parse(ToUri(r)) == Some(r)
  {
    var rest := Path(r) + if r.part.Some? then ['#'] + r.part.value else [];
    UriLayout(r);
    StripBack(rest);
    PartBack(r);
    SplitOnceFinds(r.pluginId, '/', r.target);
  }

  lemma PartBack(r: CredRef)
    requires WellFormed(r)
    ensures SplitPart(Path(r) + if r.part.Some? then ['#'] + r.part.value else []) == Some((Path(r), r.part))
  {
    assert '#' !in Path(r);
    if r.part.Some? {
      SplitOnceFinds(Path(r), '#', r.part.value);
    } else {
      assert Path(r) + [] == Path(r);
    }
  }

  /** Every accepted URI renders back to itself, and names a well-formed reference. */
  lemma ToUriParse(uri: string)
    requires Parse(uri).Some?
    ensures WellFormed(Parse(uri).value) && ToUri(Parse(uri).value) == uri
  {
    var r := Parse(uri).value;
    StripGives(uri);
    UriLayout(r);
    var rest := StripPrefix(uri, CRED_SCHEME).value;
    var (path, part) := SplitPart(rest).value;
    assert path == Path(r);
    assert forall c :: c in r.pluginId || c in r.target ==> c in path;
    assert rest == Path(r) + if r.part.Some? then ['#'] + r.part.value else [];
  }

  /** So a reference survives the round trip exactly when it is well-formed. */
  lemma RoundTripIff(r: CredRef)
    ensures Parse(ToUri(r)) == Some(r) <==> WellFormed(r)
  {
    if WellFormed(r) {
      ParseToUri(r);
    } else if Parse(ToUri(r)) == Some(r) {
      ToUriParse(ToUri(r));
    }
  }

  /** A URI made of an id, a target and perhaps a part, each without the delimiters that follow it. */
  predicate Spells(uri: string, id: string, target: string, part: Option<string>) {
    && id != "" && '/' !in id && '#' !in id && target != "" && '#' !in target && (part.Some? ==> part.value != "")
    && uri == "cred://" + ((id + (['/'] + target)) + if part.Some? then ['#'] + part.value else [])
  }

  /** What is accepted and what it means: the spelling decides, and the cache key is id and target in that order. */
  lemma ParseSpelled(uri: string, id: string, target: string, part: Option<string>)
    ensures Spells(uri, id, target, part) <==> Parse(uri) == Some(CredRef(id, target, part))
    ensures Spells(uri, id, target, part) ==> Parse(uri).value.CacheKey() == (id, target)
  {
    var r := CredRef(id, target, part);
    UriLayout(r);
    if Spells(uri, id, target, part) { ParseToUri(r); }
    if Parse(uri) == Some(r) { ToUriParse(uri); }
  }

  /** Two accepted URIs share a cache entry exactly when they differ in nothing but the part. */
  lemma CacheKeyIgnoresPart(a: string, b: string)
    requires Parse(a).Some? && Parse(b).Some?
    ensures Parse(a).value.CacheKey() == Parse(b).value.CacheKey() <==>
            Before(a, '#') == Before(b, '#')
  {
    KeyIsBase(a);
    KeyIsBase(b);
    var r, q := Parse(a).value.(part := None), Parse(b).value.(part := None);
    ToUriParse(a);
    ToUriParse(b);
    ParseToUri(r);
    ParseToUri(q);
  }

  lemma KeyIsBase(uri: string)
    requires Parse(uri).Some?
    ensures Before(uri, '#') == ToUri(Parse(uri).value.(part := None))
  {
    var r := Parse(uri).value;
    ToUriParse(uri);
    UriLayout(r);
    UriLayout(r.(part := None));
    var base := CRED_SCHEME + Path(r);
    assert '#' !in CRED_SCHEME;
    assert Path(r) + [] == Path(r);
    if r.part.Some? {
      Assoc(CRED_SCHEME, Path(r), ['#'] + r.part.value);
      SplitOnceFinds(base, '#', r.part.value);
    }
  }
}
