/**
  The bytes `identity_hash_with_attrs` feeds to its digest. Strings are their UTF-8 bytes;
  the digest itself is left abstract, so "same key" means "same stream".
*/
module IdentityKey {
  import opened Wrappers
  import opened Sorting
  import opened ByteStrings
  import opened Text

  datatype Identity = Identity(
    kind: Bytes, trustLevel: Bytes,
    subjectId: Option<Bytes>, authProvider: Option<Bytes>, issuer: Option<Bytes>,
    roles: seq<Bytes>, groups: seq<Bytes>, scopes: seq<Bytes>,
    attributes: map<Bytes, Bytes>)

  const DOMAIN: Bytes := Ascii("mcpg.identity_hash.v3") + [0]
  const SUBJECT_TOKEN: Bytes := Ascii("subject_token")
  const SUBJECT_TOKEN_SOURCE: Bytes := Ascii("subject_token_source")
  const SUBJECT_TOKEN_BINDING: Bytes := Ascii("subject_token_binding")
  const IDP_VAULT: Bytes := Ascii("idp_vault")

  function OrEmpty(x: Option<Bytes>): Bytes {
    match x
    case Some(v) => v
    case None => []
  }

  // ---- What is fed

  predicate VaultBound(id: Identity) {
    && SUBJECT_TOKEN_SOURCE in id.attributes && id.attributes[SUBJECT_TOKEN_SOURCE] == IDP_VAULT
    && SUBJECT_TOKEN_BINDING in id.attributes
  }

  function Lookups(attributes: map<Bytes, Bytes>, keys: seq<Bytes>): seq<(Bytes, Bytes)> {
    if keys == [] then []
    else (if keys[0] in attributes then [(keys[0], attributes[keys[0]])] else []) + Lookups(attributes, keys[1..])
  }

  function Without(keys: seq<Bytes>, k: Bytes): seq<Bytes> {
    if keys == [] then []
    else (if keys[0] == k then [] else [keys[0]]) + Without(keys[1..], k)
  }

  /** The keys looked up, in the order of the iterator chain. */
  function LookupKeys(id: Identity, keyAttributes: seq<Bytes>): seq<Bytes> {
    if VaultBound(id) then Without(keyAttributes, SUBJECT_TOKEN) + [SUBJECT_TOKEN_BINDING]
    else keyAttributes + [SUBJECT_TOKEN]
  }

  /** The stream's content before it is laid out as bytes. */
  datatype Canonical = Canonical(
    kind: Bytes, trustLevel: Bytes, subjectId: Bytes, authProvider: Bytes, issuer: Bytes,
    roles: seq<Bytes>, groups: seq<Bytes>, scopes: seq<Bytes>, attrs: seq<(Bytes, Bytes)>)

  function Canon(id: Identity, keyAttributes: seq<Bytes>): Canonical {
    Canonical(id.kind, id.trustLevel, OrEmpty(id.subjectId), OrEmpty(id.authProvider), OrEmpty(id.issuer),
              Sort(LexLe, id.roles), Sort(LexLe, id.groups), Sort(LexLe, id.scopes),
              Dedup(Sort(PairLe, Lookups(id.attributes, LookupKeys(id, keyAttributes)))))
  }

  // ---- The layout

  function Header(tag: Bytes): Bytes {
    LittleEndian(|tag|, 4) + tag
  }

  function Feed(tag: Bytes, val: Bytes): Bytes {
    Header(tag) + LittleEndian(|val|, 8) + val
  }

  function FeedItems(tag: Bytes, items: seq<Bytes>): Bytes {
    if items == [] then [] else FeedItems(tag, items[..|items| - 1]) + Feed(tag, items[|items| - 1])
  }

  function FeedList(tag: Bytes, items: seq<Bytes>): Bytes {
    LittleEndian(|items|, 8) + FeedItems(tag, items)
  }

  function FeedPairs(pairs: seq<(Bytes, Bytes)>): Bytes {
    if pairs == [] then []
    else
      var p := pairs[|pairs| - 1];
      FeedPairs(pairs[..|pairs| - 1]) + (Feed(Ascii("attr.k"), p.0) + Feed(Ascii("attr.v"), p.1))
  }

  function FeedAttrs(pairs: seq<(Bytes, Bytes)>): Bytes {
    LittleEndian(|pairs|, 8) + FeedPairs(pairs)
  }

  function EncodeFields(c: Canonical): Bytes {
    Feed(Ascii("kind"), c.kind) + Feed(Ascii("trust_level"), c.trustLevel) + Feed(Ascii("subject_id"), c.subjectId)
    + Feed(Ascii("auth_provider"), c.authProvider) + Feed(Ascii("issuer"), c.issuer)
  }

  function EncodeLists(c: Canonical): Bytes {
    FeedList(Ascii("role"), c.roles) + FeedList(Ascii("group"), c.groups) + FeedList(Ascii("scope"), c.scopes)
  }

  function Encode(c: Canonical): Bytes {
    DOMAIN + EncodeFields(c) + EncodeLists(c) + FeedAttrs(c.attrs)
  }

  method FeedSorted(h: Bytes, tag: Bytes, list: seq<Bytes>) returns (fed: Bytes)
    ensures fed == h + FeedList(tag, list)
  {
    fed := LittleEndian(|list|, 8);
    for i := 0 to |list|
      invariant fed == LittleEndian(|list|, 8) + FeedItems(tag, list[..i])
    {
      assert list[..i + 1][..i] == list[..i];
      Assoc(LittleEndian(|list|, 8), FeedItems(tag, list[..i]), Feed(tag, list[i]));
      fed := fed + Feed(tag, list[i]);
    }
    assert list[..|list|] == list;
    fed := h + fed;
  }

  method FeedPresent(h: Bytes, attrs: seq<(Bytes, Bytes)>) returns (fed: Bytes)
    ensures fed == h + FeedAttrs(attrs)
  {
    fed := LittleEndian(|attrs|, 8);
    for i := 0 to |attrs|
      invariant fed == LittleEndian(|attrs|, 8) + FeedPairs(attrs[..i])
    {
      assert attrs[..i + 1][..i] == attrs[..i];
      var k, v := Feed(Ascii("attr.k"), attrs[i].0), Feed(Ascii("attr.v"), attrs[i].1);
      Assoc(LittleEndian(|attrs|, 8), FeedPairs(attrs[..i]), k + v);
      Assoc(fed, k, v);
      fed := fed + k;
      fed := fed + v;
    }
    assert attrs[..|attrs|] == attrs;
    fed := h + fed;
  }

  /** The stream as the source builds it: field by field, then list by list, then pair by pair. */
  method IdentityStream(id: Identity, keyAttributes: seq<Bytes>) returns (h: Bytes)
    ensures h == Encode(Canon(id, keyAttributes))
  {
    ghost var c := Canon(id, keyAttributes);
    h := DOMAIN;
    h := h + Feed(Ascii("kind"), id.kind);
    h := h + Feed(Ascii("trust_level"), id.trustLevel);
    h := h + Feed(Ascii("subject_id"), OrEmpty(id.subjectId));
    h := h + Feed(Ascii("auth_provider"), OrEmpty(id.authProvider));
    h := h + Feed(Ascii("issuer"), OrEmpty(id.issuer));
    FlattenFields(DOMAIN, c);
    ghost var fields := DOMAIN + EncodeFields(c);
    h := FeedSorted(h, Ascii("role"), Sort(LexLe, id.roles));
    h := FeedSorted(h, Ascii("group"), Sort(LexLe, id.groups));
    h := FeedSorted(h, Ascii("scope"), Sort(LexLe, id.scopes));
    FlattenLists(fields, FeedList(Ascii("role"), c.roles), FeedList(Ascii("group"), c.groups), FeedList(Ascii("scope"), c.scopes));
    h := FeedPresent(h, Dedup(Sort(PairLe, Lookups(id.attributes, LookupKeys(id, keyAttributes)))));
  }

  lemma FlattenFields(h: Bytes, c: Canonical)
    ensures h + Feed(Ascii("kind"), c.kind) + Feed(Ascii("trust_level"), c.trustLevel)
            + Feed(Ascii("subject_id"), c.subjectId) + Feed(Ascii("auth_provider"), c.authProvider)
            + Feed(Ascii("issuer"), c.issuer) == h + EncodeFields(c)
  {
    var f1, f2, f3 := Feed(Ascii("kind"), c.kind), Feed(Ascii("trust_level"), c.trustLevel), Feed(Ascii("subject_id"), c.subjectId);
    var f4, f5 := Feed(Ascii("auth_provider"), c.authProvider), Feed(Ascii("issuer"), c.issuer);
    Assoc(h, f1, f2);
    Assoc(h, f1 + f2, f3);
    Assoc(h, f1 + f2 + f3, f4);
    Assoc(h, f1 + f2 + f3 + f4, f5);
  }

  lemma FlattenLists(h: Bytes, a: Bytes, b: Bytes, c: Bytes)
    ensures h + a + b + c == h + (a + b + c)
  {
    Assoc(h, a, b);
    Assoc(h, a + b, c);
  }

  /** One field, byte by byte: the label's length in four bytes, the label, the value's length in eight bytes, the value. */
  lemma FeedWritten(tag: Bytes, val: Bytes)
    ensures var n, m, high := |tag|, |val|, |val| / 0x1_0000_0000;
            Feed(tag, val) ==
              ([n % 0x100, n / 0x100 % 0x100, n / 0x1_0000 % 0x100, n / 0x100_0000 % 0x100] + tag)
              + ([m % 0x100, m / 0x100 % 0x100, m / 0x1_0000 % 0x100, m / 0x100_0000 % 0x100]
                 + [high % 0x100, high / 0x100 % 0x100, high / 0x1_0000 % 0x100, high / 0x100_0000 % 0x100])
              + val
  {
    FourBytes(|tag|);
    FourBytes(|val|);
    EightBytes(|val|);
    FourBytes(|val| / 0x1_0000_0000);
  }

  // ---- Reading the layout back

  const LIMIT: nat := Pow256(8)

  function TakeNumber(b: Bytes): Option<(nat, Bytes)> {
    if |b| < 8 then None else Some((FromLittleEndian(b[..8]), b[8..]))
  }

  function TakeField(tag: Bytes, b: Bytes): Option<(Bytes, Bytes)> {
    var header := Header(tag);
    if !(header <= b) then None
    else
      var (n, rest) :- TakeNumber(b[|header|..]);
      if |rest| < n then None else Some((rest[..n], rest[n..]))
  }

  function TakeItems(tag: Bytes, n: nat, b: Bytes): Option<(seq<Bytes>, Bytes)> {
    if n == 0 then Some(([], b))
    else
      var (items, rest) :- TakeItems(tag, n - 1, b);
      var (v, rest') :- TakeField(tag, rest);
      Some((items + [v], rest'))
  }

  function TakeList(tag: Bytes, b: Bytes): Option<(seq<Bytes>, Bytes)> {
    var (n, rest) :- TakeNumber(b);
    TakeItems(tag, n, rest)
  }

  function TakePairs(n: nat, b: Bytes): Option<(seq<(Bytes, Bytes)>, Bytes)> {
    if n == 0 then Some(([], b))
    else
      var (pairs, rest) :- TakePairs(n - 1, b);
      var (k, rest') :- TakeField(Ascii("attr.k"), rest);
      var (v, rest'') :- TakeField(Ascii("attr.v"), rest');
      Some((pairs + [(k, v)], rest''))
  }

  function TakeFields(b: Bytes): Option<((Bytes, Bytes, Bytes, Bytes, Bytes), Bytes)> {
    var (kind, b1) :- TakeField(Ascii("kind"), b);
    var (trustLevel, b2) :- TakeField(Ascii("trust_level"), b1);
    var (subjectId, b3) :- TakeField(Ascii("subject_id"), b2);
    var (authProvider, b4) :- TakeField(Ascii("auth_provider"), b3);
    var (issuer, b5) :- TakeField(Ascii("issuer"), b4);
    Some(((kind, trustLevel, subjectId, authProvider, issuer), b5))
  }

  function TakeLists(b: Bytes): Option<((seq<Bytes>, seq<Bytes>, seq<Bytes>), Bytes)> {
    var (roles, b1) :- TakeList(Ascii("role"), b);
    var (groups, b2) :- TakeList(Ascii("group"), b1);
    var (scopes, b3) :- TakeList(Ascii("scope"), b2);
    Some(((roles, groups, scopes), b3))
  }

  function TakeAttrs(b: Bytes): Option<(seq<(Bytes, Bytes)>, Bytes)> {
    var (n, rest) :- TakeNumber(b);
    TakePairs(n, rest)
  }

  function Decode(b: Bytes): Option<Canonical> {
    if !(DOMAIN <= b) then None
    else
      var (f, b1) :- TakeFields(b[|DOMAIN|..]);
      var (l, b2) :- TakeLists(b1);
      var (attrs, b3) :- TakeAttrs(b2);
      if b3 == [] then Some(Canonical(f.0, f.1, f.2, f.3, f.4, l.0, l.1, l.2, attrs)) else None
  }

  lemma NumberBack(n: nat, rest: Bytes)
    requires n < LIMIT
    ensures TakeNumber(LittleEndian(n, 8) + rest) == Some((n, rest))
  {
    LittleEndianRoundTrip(n, 8);
    var b := LittleEndian(n, 8) + rest;
    assert b[..8] == LittleEndian(n, 8) && b[8..] == rest;
  }

  lemma FieldBack(tag: Bytes, val: Bytes, rest: Bytes)
    requires |val| < LIMIT
    ensures TakeField(tag, Feed(tag, val) + rest) == Some((val, rest))
  {
    var b := Feed(tag, val) + rest;
    var header := Header(tag);
    assert b == header + (LittleEndian(|val|, 8) + (val + rest));
    assert b[|header|..] == LittleEndian(|val|, 8) + (val + rest);
    NumberBack(|val|, val + rest);
    assert (val + rest)[..|val|] == val && (val + rest)[|val|..] == rest;
  }

  ghost predicate Addressable(items: seq<Bytes>) {
    |items| < LIMIT && forall i :: 0 <= i < |items| ==> |items[i]| < LIMIT
  }

  lemma FrontLast<T>(s: seq<T>)
    requires s != []
    ensures s[..|s| - 1] + [s[|s| - 1]] == s
  {
  }

  lemma {:induction false} ItemsBack(tag: Bytes, items: seq<Bytes>, rest: Bytes)
    requires Addressable(items)
    ensures TakeItems(tag, |items|, FeedItems(tag, items) + rest) == Some((items, rest))
  {
    if items == [] {
      assert FeedItems(tag, items) + rest == rest;
    } else {
      var front, last := items[..|items| - 1], items[|items| - 1];
      var f := Feed(tag, last);
      ItemsBack(tag, front, f + rest);
      var b := FeedItems(tag, front) + (f + rest);
      assert TakeItems(tag, |items| - 1, b) == Some((front, f + rest));
      FieldBack(tag, last, rest);
      FrontLast(items);
      assert TakeItems(tag, |items|, b) == Some((items, rest));
      Assoc(FeedItems(tag, front), f, rest);
      assert FeedItems(tag, items) == FeedItems(tag, front) + f;
    }
  }

  lemma ListBack(tag: Bytes, items: seq<Bytes>, rest: Bytes)
    requires Addressable(items)
    ensures TakeList(tag, FeedList(tag, items) + rest) == Some((items, rest))
  {
    assert FeedList(tag, items) + rest == LittleEndian(|items|, 8) + (FeedItems(tag, items) + rest);
    NumberBack(|items|, FeedItems(tag, items) + rest);
    ItemsBack(tag, items, rest);
  }

  ghost predicate AddressablePairs(pairs: seq<(Bytes, Bytes)>) {
    |pairs| < LIMIT && forall i :: 0 <= i < |pairs| ==> |pairs[i].0| < LIMIT && |pairs[i].1| < LIMIT
  }

  lemma {:induction false} PairsBack(pairs: seq<(Bytes, Bytes)>, rest: Bytes)
    requires AddressablePairs(pairs)
    ensures TakePairs(|pairs|, FeedPairs(pairs) + rest) == Some((pairs, rest))
  {
    if pairs == [] {
      assert FeedPairs(pairs) + rest == rest;
    } else {
      var front, last := pairs[..|pairs| - 1], pairs[|pairs| - 1];
      var k, v := Feed(Ascii("attr.k"), last.0), Feed(Ascii("attr.v"), last.1);
      PairsBack(front, (k + v) + rest);
      Assoc(FeedPairs(front), k + v, rest);
      Assoc(k, v, rest);
      FieldBack(Ascii("attr.k"), last.0, v + rest);
      FieldBack(Ascii("attr.v"), last.1, rest);
      FrontLast(pairs);
    }
  }

  ghost predicate AddressableCanonical(c: Canonical) {
    && |c.kind| < LIMIT && |c.trustLevel| < LIMIT && |c.subjectId| < LIMIT && |c.authProvider| < LIMIT && |c.issuer| < LIMIT
    && Addressable(c.roles) && Addressable(c.groups) && Addressable(c.scopes) && AddressablePairs(c.attrs)
  }

  lemma FieldsBack(c: Canonical, rest: Bytes)
    requires AddressableCanonical(c)
    ensures TakeFields(EncodeFields(c) + rest) ==
            Some(((c.kind, c.trustLevel, c.subjectId, c.authProvider, c.issuer), rest))
  {
    var f1, f2, f3 := Feed(Ascii("kind"), c.kind), Feed(Ascii("trust_level"), c.trustLevel), Feed(Ascii("subject_id"), c.subjectId);
    var f4, f5 := Feed(Ascii("auth_provider"), c.authProvider), Feed(Ascii("issuer"), c.issuer);
    NestFive(f1, f2, f3, f4, f5, rest);
    FieldBack(Ascii("kind"), c.kind, f2 + (f3 + (f4 + (f5 + rest))));
    FieldBack(Ascii("trust_level"), c.trustLevel, f3 + (f4 + (f5 + rest)));
    FieldBack(Ascii("subject_id"), c.subjectId, f4 + (f5 + rest));
    FieldBack(Ascii("auth_provider"), c.authProvider, f5 + rest);
    FieldBack(Ascii("issuer"), c.issuer, rest);
  }

  lemma NestFive(a: Bytes, b: Bytes, c: Bytes, d: Bytes, e: Bytes, rest: Bytes)
    ensures a + b + c + d + e + rest == a + (b + (c + (d + (e + rest))))
  {
    Assoc(a + b + c + d, e, rest);
    Assoc(a + b + c, d, e + rest);
    Assoc(a + b, c, d + (e + rest));
    Assoc(a, b, c + (d + (e + rest)));
  }

  lemma ListsBack(c: Canonical, rest: Bytes)
    requires AddressableCanonical(c)
    ensures TakeLists(EncodeLists(c) + rest) == Some(((c.roles, c.groups, c.scopes), rest))
  {
    var l1, l2, l3 := FeedList(Ascii("role"), c.roles), FeedList(Ascii("group"), c.groups), FeedList(Ascii("scope"), c.scopes);
    Assoc(l1 + l2, l3, rest);
    Assoc(l1, l2, l3 + rest);
    ListBack(Ascii("role"), c.roles, l2 + (l3 + rest));
    ListBack(Ascii("group"), c.groups, l3 + rest);
    ListBack(Ascii("scope"), c.scopes, rest);
  }

  lemma AttrsBack(pairs: seq<(Bytes, Bytes)>)
    requires AddressablePairs(pairs)
    ensures TakeAttrs(FeedAttrs(pairs)) == Some((pairs, []))
  {
    NumberBack(|pairs|, FeedPairs(pairs));
    PairsBack(pairs, []);
    assert FeedPairs(pairs) + [] == FeedPairs(pairs);
  }

  /** The length prefixes make the stream readable: it gives back exactly what was put in. */
  lemma DecodeEncode(c: Canonical)
    requires AddressableCanonical(c)
    ensures Decode(Encode(c)) == Some(c)
  {
    var fields, lists, attrs := EncodeFields(c), EncodeLists(c), FeedAttrs(c.attrs);
    Assoc(DOMAIN + fields, lists, attrs);
    Assoc(DOMAIN, fields, lists + attrs);
    assert Encode(c) == DOMAIN + (fields + (lists + attrs));
    assert Encode(c)[|DOMAIN|..] == fields + (lists + attrs);
    FieldsBack(c, lists + attrs);
    ListsBack(c, attrs);
    AttrsBack(c.attrs);
  }

  // ---- What two equal streams have in common

  function Keyed(id: Identity, keyAttributes: seq<Bytes>): set<Bytes> {
    var listed := set k | k in keyAttributes;
    if VaultBound(id) then listed - {SUBJECT_TOKEN} + {SUBJECT_TOKEN_BINDING} else listed + {SUBJECT_TOKEN}
  }

  /** The attribute pairs that take part in the key. */
  function Folded(id: Identity, keyAttributes: seq<Bytes>): set<(Bytes, Bytes)> {
    set k | k in Keyed(id, keyAttributes) && k in id.attributes :: (k, id.attributes[k])
  }

  /** Every string and list is as long as a Rust value can be at most. */
  ghost predicate InMemory(id: Identity, keyAttributes: seq<Bytes>) {
    && |id.kind| < LIMIT && |id.trustLevel| < LIMIT && |OrEmpty(id.subjectId)| < LIMIT
    && |OrEmpty(id.authProvider)| < LIMIT && |OrEmpty(id.issuer)| < LIMIT
    && Addressable(id.roles) && Addressable(id.groups) && Addressable(id.scopes)
    && |keyAttributes| + 1 < LIMIT
    && forall k :: k in id.attributes ==> |k| < LIMIT && |id.attributes[k]| < LIMIT
  }

  lemma {:induction false} WithoutMembers(keys: seq<Bytes>, k: Bytes)
    ensures forall x :: x in Without(keys, k) <==> x in keys && x != k
    ensures |Without(keys, k)| <= |keys|
  {
    if keys != [] {
      WithoutMembers(keys[1..], k);
      assert keys == [keys[0]] + keys[1..];
    }
  }

  lemma {:induction false} LookupsMembers(attributes: map<Bytes, Bytes>, keys: seq<Bytes>)
    ensures forall p :: p in Lookups(attributes, keys) <==> p.0 in keys && p.0 in attributes && p.1 == attributes[p.0]
    ensures |Lookups(attributes, keys)| <= |keys|
  {
    if keys != [] {
      LookupsMembers(attributes, keys[1..]);
      assert keys == [keys[0]] + keys[1..];
    }
  }

  lemma {:induction false} DedupLength<T>(s: seq<T>)
    ensures |Dedup(s)| <= |s|
  {
    if |s| >= 2 { DedupLength(s[1..]); }
  }

  lemma KeysAreKeyed(id: Identity, keyAttributes: seq<Bytes>)
    ensures forall k :: k in LookupKeys(id, keyAttributes) <==> k in Keyed(id, keyAttributes)
    ensures |LookupKeys(id, keyAttributes)| <= |keyAttributes| + 1
  {
    WithoutMembers(keyAttributes, SUBJECT_TOKEN);
  }

  lemma LookupsAreFolded(id: Identity, keyAttributes: seq<Bytes>)
    ensures var found := Lookups(id.attributes, LookupKeys(id, keyAttributes));
            |found| <= |keyAttributes| + 1 && forall p :: p in found <==> p in Folded(id, keyAttributes)
  {
    KeysAreKeyed(id, keyAttributes);
    LookupsMembers(id.attributes, LookupKeys(id, keyAttributes));
  }

  /** Sorting and deduplicating keeps exactly the elements, in strict order. */
  lemma Canonicalized(found: seq<(Bytes, Bytes)>)
    ensures var attrs := Dedup(Sort(PairLe, found));
            SortedBy(PairLe, attrs) && NoDuplicates(attrs) && |attrs| <= |found| && forall p :: p in attrs <==> p in found
  {
    PairOrder();
    SortSorts(PairLe, found);
    SameMembers(Sort(PairLe, found), found);
    DedupKeeps(PairLe, Sort(PairLe, found));
    DedupLength(Sort(PairLe, found));
  }

  lemma AttrsAreFolded(id: Identity, keyAttributes: seq<Bytes>)
    ensures var attrs := Canon(id, keyAttributes).attrs;
            && SortedBy(PairLe, attrs) && NoDuplicates(attrs) && |attrs| <= |keyAttributes| + 1
            && forall p :: p in attrs <==> p in Folded(id, keyAttributes)
  {
    LookupsAreFolded(id, keyAttributes);
    Canonicalized(Lookups(id.attributes, LookupKeys(id, keyAttributes)));
  }

  lemma AttrsEqualIff(a: Identity, aKeys: seq<Bytes>, b: Identity, bKeys: seq<Bytes>)
    ensures Canon(a, aKeys).attrs == Canon(b, bKeys).attrs <==> Folded(a, aKeys) == Folded(b, bKeys)
  {
    AttrsAreFolded(a, aKeys);
    AttrsAreFolded(b, bKeys);
    PairOrder();
    if Folded(a, aKeys) == Folded(b, bKeys) {
      SortedSetUnique(PairLe, Canon(a, aKeys).attrs, Canon(b, bKeys).attrs);
    }
  }

  lemma SortAddressable(items: seq<Bytes>)
    requires Addressable(items)
    ensures Addressable(Sort(LexLe, items))
  {
    SameMembers(Sort(LexLe, items), items);
    forall i | 0 <= i < |items|
      ensures |Sort(LexLe, items)[i]| < LIMIT
    {
      assert Sort(LexLe, items)[i] in items;
    }
  }

  lemma CanonAddressable(id: Identity, keyAttributes: seq<Bytes>)
    requires InMemory(id, keyAttributes)
    ensures AddressableCanonical(Canon(id, keyAttributes))
  {
    SortAddressable(id.roles);
    SortAddressable(id.groups);
    SortAddressable(id.scopes);
    AttrsAreFolded(id, keyAttributes);
    var attrs := Canon(id, keyAttributes).attrs;
    forall i | 0 <= i < |attrs|
      ensures |attrs[i].0| < LIMIT && |attrs[i].1| < LIMIT
    {
      assert attrs[i] in attrs;
    }
  }

  /**
    Two callers share a stream exactly when they agree on kind, trust level, the three
    optional fields read with `None` as empty, the roles, groups and scopes up to order,
    and the set of attribute pairs that take part in the key.
  */
  lemma StreamsEqualIff(a: Identity, aKeys: seq<Bytes>, b: Identity, bKeys: seq<Bytes>)
    requires InMemory(a, aKeys) && InMemory(b, bKeys)
    ensures Encode(Canon(a, aKeys)) == Encode(Canon(b, bKeys)) <==>
            && a.kind == b.kind && a.trustLevel == b.trustLevel
            && OrEmpty(a.subjectId) == OrEmpty(b.subjectId)
            && OrEmpty(a.authProvider) == OrEmpty(b.authProvider) && OrEmpty(a.issuer) == OrEmpty(b.issuer)
            && multiset(a.roles) == multiset(b.roles) && multiset(a.groups) == multiset(b.groups)
            && multiset(a.scopes) == multiset(b.scopes)
            && Folded(a, aKeys) == Folded(b, bKeys)
  {
    CanonAddressable(a, aKeys);
    CanonAddressable(b, bKeys);
    EncodeInjective(Canon(a, aKeys), Canon(b, bKeys));
    SortsEqualIff(a.roles, b.roles);
    SortsEqualIff(a.groups, b.groups);
    SortsEqualIff(a.scopes, b.scopes);
    AttrsEqualIff(a, aKeys, b, bKeys);
  }

  lemma EncodeInjective(c: Canonical, d: Canonical)
    requires AddressableCanonical(c) && AddressableCanonical(d)
    ensures Encode(c) == Encode(d) <==> c == d
  {
    DecodeEncode(c);
    DecodeEncode(d);
  }

  lemma SortsEqualIff(a: seq<Bytes>, b: seq<Bytes>)
    ensures Sort(LexLe, a) == Sort(LexLe, b) <==> multiset(a) == multiset(b)
  {
    LexOrder();
    SortDependsOnElements(LexLe, a, b);
  }

  // ---- Subject tokens

  lemma AttributeNamesDiffer()
    ensures SUBJECT_TOKEN != SUBJECT_TOKEN_SOURCE && SUBJECT_TOKEN != SUBJECT_TOKEN_BINDING
    ensures SUBJECT_TOKEN_SOURCE != SUBJECT_TOKEN_BINDING
  {
    assert |SUBJECT_TOKEN| == 13 && |SUBJECT_TOKEN_SOURCE| == 20 && |SUBJECT_TOKEN_BINDING| == 21;
  }

  /** The same caller with one attribute set to another value, or removed. */
  function Changed(id: Identity, k: Bytes, value: Option<Bytes>): Identity {
    id.(attributes := if value.Some? then id.attributes[k := value.value] else id.attributes - {k})
  }

  /** Which pairs take part in the key, by the attributes alone. */
  lemma FoldedWritten(id: Identity, keyAttributes: seq<Bytes>, k: Bytes, v: Bytes)
    ensures (k, v) in Canon(id, keyAttributes).attrs <==> (k, v) in Folded(id, keyAttributes)
    ensures (k, v) in Folded(id, keyAttributes) <==>
            && k in id.attributes && id.attributes[k] == v
            && if SUBJECT_TOKEN_SOURCE in id.attributes && id.attributes[SUBJECT_TOKEN_SOURCE] == IDP_VAULT
                  && SUBJECT_TOKEN_BINDING in id.attributes
               then k == SUBJECT_TOKEN_BINDING || (k in keyAttributes && k != SUBJECT_TOKEN)
               else k == SUBJECT_TOKEN || k in keyAttributes
  {
    AttributeNamesDiffer();
    AttrsAreFolded(id, keyAttributes);
    var p := (k, v);
    assert p in Canon(id, keyAttributes).attrs <==> p in Folded(id, keyAttributes);
  }

  /** What is laid out: the fields as they are, each list ascending, the pairs strictly ascending by key. */
  lemma CanonWritten(id: Identity, keyAttributes: seq<Bytes>)
    ensures var c := Canon(id, keyAttributes);
            && c.kind == id.kind && c.trustLevel == id.trustLevel
            && c.subjectId == (if id.subjectId.Some? then id.subjectId.value else [])
            && c.authProvider == (if id.authProvider.Some? then id.authProvider.value else [])
            && c.issuer == (if id.issuer.Some? then id.issuer.value else [])
            && SortedBy(LexLe, c.roles) && multiset(c.roles) == multiset(id.roles)
            && SortedBy(LexLe, c.groups) && multiset(c.groups) == multiset(id.groups)
            && SortedBy(LexLe, c.scopes) && multiset(c.scopes) == multiset(id.scopes)
    ensures var attrs := Canon(id, keyAttributes).attrs;
            forall i, j :: 0 <= i < j < |attrs| ==> attrs[i].0 != attrs[j].0 && LexLe(attrs[i].0, attrs[j].0)
  {
    LexOrder();
    SortSorts(LexLe, id.roles);
    SortSorts(LexLe, id.groups);
    SortSorts(LexLe, id.scopes);
    AttrsAreFolded(id, keyAttributes);
    var attrs := Canon(id, keyAttributes).attrs;
    forall i, j | 0 <= i < j < |attrs|
      ensures attrs[i].0 != attrs[j].0 && LexLe(attrs[i].0, attrs[j].0)
    {
      assert attrs[i] in attrs && attrs[j] in attrs;
      FoldedPair(id, keyAttributes, attrs[i]);
      FoldedPair(id, keyAttributes, attrs[j]);
      assert PairLe(attrs[i], attrs[j]) && attrs[i] != attrs[j];
    }
  }

  /** With the vault source and a binding, the stream stays through any rotation of the subject token, whatever is listed. */
  lemma RotationKeepsStream(id: Identity, keyAttributes: seq<Bytes>, token: Option<Bytes>)
    requires SUBJECT_TOKEN_SOURCE in id.attributes && id.attributes[SUBJECT_TOKEN_SOURCE] == IDP_VAULT
    requires SUBJECT_TOKEN_BINDING in id.attributes
    ensures Encode(Canon(Changed(id, SUBJECT_TOKEN, token), keyAttributes)) == Encode(Canon(id, keyAttributes))
  {
    AttributeNamesDiffer();
    var other := Changed(id, SUBJECT_TOKEN, token);
    assert VaultBound(other);
    assert SUBJECT_TOKEN !in Keyed(id, keyAttributes);
    assert Folded(other, keyAttributes) == Folded(id, keyAttributes);
    AttrsEqualIff(other, keyAttributes, id, keyAttributes);
  }

  /** Its binding counts instead: whoever shares its stream carries the same one. */
  lemma BindingCounts(a: Identity, aKeys: seq<Bytes>, b: Identity, bKeys: seq<Bytes>)
    requires InMemory(a, aKeys) && InMemory(b, bKeys)
    requires SUBJECT_TOKEN_SOURCE in a.attributes && a.attributes[SUBJECT_TOKEN_SOURCE] == IDP_VAULT
    requires SUBJECT_TOKEN_BINDING in a.attributes
    requires Encode(Canon(a, aKeys)) == Encode(Canon(b, bKeys))
    ensures SUBJECT_TOKEN_BINDING in b.attributes
    ensures b.attributes[SUBJECT_TOKEN_BINDING] == a.attributes[SUBJECT_TOKEN_BINDING]
  {
    StreamsEqualIff(a, aKeys, b, bKeys);
    var binding := (SUBJECT_TOKEN_BINDING, a.attributes[SUBJECT_TOKEN_BINDING]);
    assert SUBJECT_TOKEN_BINDING in Keyed(a, aKeys);
    assert binding in Folded(a, aKeys);
    FoldedPair(b, bKeys, binding);
  }

  /** An attribute that is neither listed nor one of the three subject token attributes does not count. */
  lemma UnlistedIgnored(id: Identity, keyAttributes: seq<Bytes>, k: Bytes, value: Option<Bytes>)
    requires k !in keyAttributes && k !in {SUBJECT_TOKEN, SUBJECT_TOKEN_SOURCE, SUBJECT_TOKEN_BINDING}
    ensures Encode(Canon(Changed(id, k, value), keyAttributes)) == Encode(Canon(id, keyAttributes))
  {
    var other := Changed(id, k, value);
    assert VaultBound(other) == VaultBound(id) && k !in Keyed(id, keyAttributes);
    assert Folded(other, keyAttributes) == Folded(id, keyAttributes);
    AttrsEqualIff(other, keyAttributes, id, keyAttributes);
  }

  /** A binding without the vault source does not count, unless it is listed. */
  lemma BindingWithoutSourceIgnored(id: Identity, keyAttributes: seq<Bytes>, binding: Option<Bytes>)
    requires SUBJECT_TOKEN_BINDING !in keyAttributes
    requires SUBJECT_TOKEN_SOURCE in id.attributes ==> id.attributes[SUBJECT_TOKEN_SOURCE] != IDP_VAULT
    ensures Encode(Canon(Changed(id, SUBJECT_TOKEN_BINDING, binding), keyAttributes)) == Encode(Canon(id, keyAttributes))
  {
    AttributeNamesDiffer();
    var other := Changed(id, SUBJECT_TOKEN_BINDING, binding);
    assert !VaultBound(other) && SUBJECT_TOKEN_BINDING !in Keyed(id, keyAttributes);
    assert Folded(other, keyAttributes) == Folded(id, keyAttributes);
    AttrsEqualIff(other, keyAttributes, id, keyAttributes);
  }

  lemma FoldedPair(id: Identity, keyAttributes: seq<Bytes>, p: (Bytes, Bytes))
    requires p in Folded(id, keyAttributes)
    ensures p.0 in Keyed(id, keyAttributes) && p.0 in id.attributes && id.attributes[p.0] == p.1
  {
  }

  lemma TokenFolded(a: Identity, aKeys: seq<Bytes>, b: Identity, bKeys: seq<Bytes>)
    requires !VaultBound(a) && SUBJECT_TOKEN in a.attributes && Folded(a, aKeys) == Folded(b, bKeys)
    ensures !VaultBound(b)
    ensures SUBJECT_TOKEN in b.attributes && b.attributes[SUBJECT_TOKEN] == a.attributes[SUBJECT_TOKEN]
  {
    AttributeNamesDiffer();
    var token := (SUBJECT_TOKEN, a.attributes[SUBJECT_TOKEN]);
    assert SUBJECT_TOKEN in Keyed(a, aKeys);
    FoldedPair(b, bKeys, token);
  }

  /**
   * A subject token is shared only with callers that carry the same one, unless the source is the vault and there is a
   * binding; and such a caller shares with none of that kind.
   */
  lemma TokensPartitionStreams(a: Identity, aKeys: seq<Bytes>, b: Identity, bKeys: seq<Bytes>)
    requires InMemory(a, aKeys) && InMemory(b, bKeys)
    requires SUBJECT_TOKEN in a.attributes
    requires || SUBJECT_TOKEN_SOURCE !in a.attributes || a.attributes[SUBJECT_TOKEN_SOURCE] != IDP_VAULT
             || SUBJECT_TOKEN_BINDING !in a.attributes
    requires Encode(Canon(a, aKeys)) == Encode(Canon(b, bKeys))
    ensures || SUBJECT_TOKEN_SOURCE !in b.attributes || b.attributes[SUBJECT_TOKEN_SOURCE] != IDP_VAULT
            || SUBJECT_TOKEN_BINDING !in b.attributes
    ensures SUBJECT_TOKEN in b.attributes && b.attributes[SUBJECT_TOKEN] == a.attributes[SUBJECT_TOKEN]
  {
    StreamsEqualIff(a, aKeys, b, bKeys);
    TokenFolded(a, aKeys, b, bKeys);
  }
}
