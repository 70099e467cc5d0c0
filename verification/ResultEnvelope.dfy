/** The `{"ok": …}` / `{"err": …}` envelope around a fallible result, for any payload types. */
module ResultEnvelope {
  import opened Wrappers
  import opened JsonValues

  datatype Result<T, E> = Ok(ok: T) | Err(err: E)

  /** How a payload is written and read; reading may fail. `missing` is what a field that is not there reads as. */
  datatype Codec<!T(!new)> = Codec(encode: T -> Json, decode: Json -> Option<T>, missing: Option<T>) {
    ghost predicate Lawful() {
      forall x :: decode(encode(x)) == Some(x)
    }
  }

  /** An optional payload: `null` stands for none, and so does a missing field. */
  function Optional<T(!new)>(inner: Codec<T>): Codec<Option<T>> {
    Codec(
      (o: Option<T>) => if o.None? then Null else inner.encode(o.value),
      (v: Json) => if v == Null then Some(None) else
        match inner.decode(v)
        case Some(x) => Some(Some(x))
        case None => None,
      Some(None))
  }

  lemma OptionalLawful<T(!new)>(inner: Codec<T>)
    requires inner.Lawful() && forall x :: inner.encode(x) != Null
    ensures Optional(inner).Lawful()
  {
  }

  /** A parsed message: the entries of an object in the order they stand, repeated keys included, or something else. */
  datatype Wire = Entries(entries: seq<(string, Json)>) | NotAnObject

  function Encode<T(!new), E(!new)>(r: Result<T, E>, okCodec: Codec<T>, errCodec: Codec<E>): Wire {
    match r
    case Ok(v) => Entries([("ok", okCodec.encode(v))])
    case Err(e) => Entries([("err", errCodec.encode(e))])
  }

  // ---- Decoding

  predicate IsResultKey(key: string) {
    key == "ok" || key == "err"
  }

  /** What one `ok` or `err` entry says, if its value can be read. */
  function ReadEntry<T(!new), E(!new)>(entry: (string, Json), okCodec: Codec<T>, errCodec: Codec<E>): Option<Result<T, E>>
    requires IsResultKey(entry.0)
  {
    if entry.0 == "ok" then
      match okCodec.decode(entry.1)
      case Some(v) => Some(Ok(v))
      case None => None
    else
      match errCodec.decode(entry.1)
      case Some(e) => Some(Err(e))
      case None => None
  }

  ghost predicate AllReadable<T(!new), E(!new)>(entries: seq<(string, Json)>, okCodec: Codec<T>, errCodec: Codec<E>) {
    forall i :: 0 <= i < |entries| && IsResultKey(entries[i].0) ==> ReadEntry(entries[i], okCodec, errCodec).Some?
  }

  /** Entry `i` is the last one under `ok` or `err`. */
  ghost predicate IsLastResult(entries: seq<(string, Json)>, i: nat) {
    && i < |entries| && IsResultKey(entries[i].0)
    && forall j :: i < j < |entries| ==> !IsResultKey(entries[j].0)
  }

  ghost predicate HasResult(entries: seq<(string, Json)>) {
    exists i :: 0 <= i < |entries| && IsResultKey(entries[i].0)
  }

  /** Every value under `key` can be read. */
  ghost predicate Readable<P(!new)>(entries: seq<(string, Json)>, key: string, codec: Codec<P>) {
    forall i :: 0 <= i < |entries| && entries[i].0 == key ==> codec.decode(entries[i].1).Some?
  }

  /** The entry `i` stands under `key` and reads as `x`, and neither `ok` nor `err` comes after it. */
  ghost predicate EndsWith<P(!new)>(entries: seq<(string, Json)>, i: nat, key: string, codec: Codec<P>, x: P) {
    && i < |entries| && entries[i].0 == key && codec.decode(entries[i].1) == Some(x)
    && forall j :: i < j < |entries| ==> entries[j].0 != "ok" && entries[j].0 != "err"
  }

  ghost predicate Says<P(!new)>(entries: seq<(string, Json)>, key: string, codec: Codec<P>, x: P) {
    exists i: nat :: EndsWith(entries, i, key, codec, x)
  }

  /**
   * What decoding returns: `Ok(x)` exactly when every `ok` and every `err` value can be read and the last of these
   * entries is an `ok` that reads as `x`; the same for `Err`; and nothing in all other cases.
   */
  ghost predicate Decodes<T(!new), E(!new)>(
      entries: seq<(string, Json)>, okCodec: Codec<T>, errCodec: Codec<E>, r: Option<Result<T, E>>) {
    var readable := Readable(entries, "ok", okCodec) && Readable(entries, "err", errCodec);
    && (forall x :: r == Some(Ok(x)) <==> readable && Says(entries, "ok", okCodec, x))
    && (forall e :: r == Some(Err(e)) <==> readable && Says(entries, "err", errCodec, e))
  }

  ghost predicate LastRead<T(!new), E(!new)>(
      entries: seq<(string, Json)>, okCodec: Codec<T>, errCodec: Codec<E>, r: Option<Result<T, E>>) {
    exists i: nat :: IsLastResult(entries, i) && r == ReadEntry(entries[i], okCodec, errCodec)
  }

  /** `out` is the last result of the entries so far, all of which can be read. */
  ghost predicate SoFar<T(!new), E(!new)>(
      entries: seq<(string, Json)>, okCodec: Codec<T>, errCodec: Codec<E>, out: Option<Result<T, E>>) {
    && AllReadable(entries, okCodec, errCodec)
    && if out.Some? then LastRead(entries, okCodec, errCodec, out) else !HasResult(entries)
  }

  lemma EntryAdded<T(!new), E(!new)>(
      entries: seq<(string, Json)>, entry: (string, Json), okCodec: Codec<T>, errCodec: Codec<E>,
      out: Option<Result<T, E>>, next: Option<Result<T, E>>)
    requires SoFar(entries, okCodec, errCodec, out)
    requires if IsResultKey(entry.0) then next == ReadEntry(entry, okCodec, errCodec) && next.Some? else next == out
    ensures SoFar(entries + [entry], okCodec, errCodec, next)
  {
    var longer, last := entries + [entry], |entries|;
    assert longer[last] == entry && forall i :: 0 <= i < last ==> longer[i] == entries[i];
    if IsResultKey(entry.0) {
      assert IsLastResult(longer, last);
    } else if out.Some? {
      var i: nat :| IsLastResult(entries, i) && out == ReadEntry(entries[i], okCodec, errCodec);
      assert IsLastResult(longer, i);
    }
  }

  lemma ReadableAll<T(!new), E(!new)>(entries: seq<(string, Json)>, okCodec: Codec<T>, errCodec: Codec<E>)
    ensures AllReadable(entries, okCodec, errCodec) <==>
            Readable(entries, "ok", okCodec) && Readable(entries, "err", errCodec)
  {
  }

  lemma Unreadable<T(!new), E(!new)>(
      entries: seq<(string, Json)>, i: nat, okCodec: Codec<T>, errCodec: Codec<E>)
    requires i < |entries| && IsResultKey(entries[i].0) && ReadEntry(entries[i], okCodec, errCodec).None?
    ensures Decodes(entries, okCodec, errCodec, None)
  {
    ReadableAll(entries, okCodec, errCodec);
  }

  /** The last result, as what one entry says, by keys and codecs. */
  lemma LastSays<T(!new), E(!new)>(
      entries: seq<(string, Json)>, okCodec: Codec<T>, errCodec: Codec<E>, r: Option<Result<T, E>>, i: nat)
    requires IsLastResult(entries, i) && r == ReadEntry(entries[i], okCodec, errCodec) && r.Some?
    ensures forall x :: Says(entries, "ok", okCodec, x) <==> r == Some(Ok(x))
    ensures forall e :: Says(entries, "err", errCodec, e) <==> r == Some(Err(e))
  {
    forall x
      ensures Says(entries, "ok", okCodec, x) <==> r == Some(Ok(x))
    {
      if r == Some(Ok(x)) { assert EndsWith(entries, i, "ok", okCodec, x); }
      if j: nat :| EndsWith(entries, j, "ok", okCodec, x) { assert j == i; }
    }
    forall e
      ensures Says(entries, "err", errCodec, e) <==> r == Some(Err(e))
    {
      if r == Some(Err(e)) { assert EndsWith(entries, i, "err", errCodec, e); }
      if j: nat :| EndsWith(entries, j, "err", errCodec, e) { assert j == i; }
    }
  }

  lemma FinishedDecodes<T(!new), E(!new)>(
      entries: seq<(string, Json)>, okCodec: Codec<T>, errCodec: Codec<E>, out: Option<Result<T, E>>)
    requires SoFar(entries, okCodec, errCodec, out)
    ensures Decodes(entries, okCodec, errCodec, out)
  {
    ReadableAll(entries, okCodec, errCodec);
    if out.Some? {
      var i: nat :| IsLastResult(entries, i) && out == ReadEntry(entries[i], okCodec, errCodec);
      LastSays(entries, okCodec, errCodec, out, i);
    } else {
      forall x
        ensures !Says(entries, "ok", okCodec, x)
      {
        if i: nat :| EndsWith(entries, i, "ok", okCodec, x) { assert HasResult(entries); }
      }
      forall e
        ensures !Says(entries, "err", errCodec, e)
      {
        if i: nat :| EndsWith(entries, i, "err", errCodec, e) { assert HasResult(entries); }
      }
    }
  }

  /** The visitor's loop over the entries. */
  method VisitMap<T(!new), E(!new)>(entries: seq<(string, Json)>, okCodec: Codec<T>, errCodec: Codec<E>)
      returns (r: Option<Result<T, E>>)
    ensures Decodes(entries, okCodec, errCodec, r)
  {
    var out: Option<Result<T, E>> := None;
    for i := 0 to |entries|
      invariant SoFar(entries[..i], okCodec, errCodec, out)
    {
      var (key, value) := entries[i];
      ghost var before := out;
      if key == "ok" {
        var v := okCodec.decode(value);
        if v.None? {
          Unreadable(entries, i, okCodec, errCodec);
          return None;
        }
        out := Some(Ok(v.value));
      } else if key == "err" {
        var e := errCodec.decode(value);
        if e.None? {
          Unreadable(entries, i, okCodec, errCodec);
          return None;
        }
        out := Some(Err(e.value));
      }
      EntryAdded(entries[..i], entries[i], okCodec, errCodec, before, out);
      assert entries[..i + 1] == entries[..i] + [entries[i]];
    }
    assert entries[..|entries|] == entries;
    FinishedDecodes(entries, okCodec, errCodec, out);
    r := out;
  }

  method Decode<T(!new), E(!new)>(wire: Wire, okCodec: Codec<T>, errCodec: Codec<E>) returns (r: Option<Result<T, E>>)
    ensures wire.NotAnObject? ==> r == None
    ensures wire.Entries? ==> Decodes(wire.entries, okCodec, errCodec, r)
  {
    match wire
    case NotAnObject => r := None;
    case Entries(entries) => r := VisitMap(entries, okCodec, errCodec);
  }

  /** The answer is determined by the entries. */
  lemma DecodesUnique<T(!new), E(!new)>(
      entries: seq<(string, Json)>, okCodec: Codec<T>, errCodec: Codec<E>,
      r: Option<Result<T, E>>, s: Option<Result<T, E>>)
    requires Decodes(entries, okCodec, errCodec, r) && Decodes(entries, okCodec, errCodec, s)
    ensures r == s
  {
    if r.Some? {
      match r.value
      case Ok(x) => assert Says(entries, "ok", okCodec, x);
      case Err(e) => assert Says(entries, "err", errCodec, e);
    } else if s.Some? {
      match s.value
      case Ok(x) => assert Says(entries, "ok", okCodec, x);
      case Err(e) => assert Says(entries, "err", errCodec, e);
    }
  }

  lemma EncodedDecodes<T(!new), E(!new)>(r: Result<T, E>, okCodec: Codec<T>, errCodec: Codec<E>)
    requires okCodec.Lawful() || r.Err?
    requires errCodec.Lawful() || r.Ok?
    ensures Decodes(Encode(r, okCodec, errCodec).entries, okCodec, errCodec, Some(r))
  {
    var entries := Encode(r, okCodec, errCodec).entries;
    assert IsResultKey(entries[0].0) && ReadEntry(entries[0], okCodec, errCodec) == Some(r);
    assert IsLastResult(entries, 0);
    FinishedDecodes(entries, okCodec, errCodec, Some(r));
  }

  /** Decoding what was encoded gives it back, whatever the payload types. */
  lemma RoundTrip<T(!new), E(!new)>(
      r: Result<T, E>, okCodec: Codec<T>, errCodec: Codec<E>, decoded: Option<Result<T, E>>)
    requires okCodec.Lawful() && errCodec.Lawful()
    ensures Decodes(Encode(r, okCodec, errCodec).entries, okCodec, errCodec, decoded) <==> decoded == Some(r)
    ensures |Encode(r, okCodec, errCodec).entries| == 1
  {
    var entries := Encode(r, okCodec, errCodec).entries;
    EncodedDecodes(r, okCodec, errCodec);
    if Decodes(entries, okCodec, errCodec, decoded) { DecodesUnique(entries, okCodec, errCodec, decoded, Some(r)); }
  }

  // ---- The decoder this one replaced

  function ValuesOf(entries: seq<(string, Json)>, key: string): seq<Json> {
    if entries == [] then []
    else (if entries[0].0 == key then [entries[0].1] else []) + ValuesOf(entries[1..], key)
  }

  /** A field of a derived decoder: repeated ones are refused, a missing one reads as its type says. */
  function ReadField<T(!new)>(entries: seq<(string, Json)>, key: string, codec: Codec<T>): Option<T> {
    var values := ValuesOf(entries, key);
    if values == [] then codec.missing else if |values| == 1 then codec.decode(values[0]) else None
  }

  /** Trying the success form first, and the error form when that fails. */
  function TryOkFirst<T(!new), E(!new)>(entries: seq<(string, Json)>, okCodec: Codec<T>, errCodec: Codec<E>)
    : Option<Result<T, E>>
  {
    match ReadField(entries, "ok", okCodec)
    case Some(v) => Some(Ok(v))
    case None =>
      match ReadField(entries, "err", errCodec)
      case Some(e) => Some(Err(e))
      case None => None
  }

  lemma TryOkFirstOn<T(!new), E(!new)>(r: Result<T, E>, okCodec: Codec<T>, errCodec: Codec<E>)
    requires okCodec.Lawful() || r.Err?
    requires errCodec.Lawful()
    ensures TryOkFirst(Encode(r, okCodec, errCodec).entries, okCodec, errCodec) ==
            if r.Err? && okCodec.missing.Some? then Some(Ok(okCodec.missing.value)) else Some(r)
  {
    var entry := Encode(r, okCodec, errCodec).entries[0];
    assert [entry][1..] == [];
    assert ValuesOf([entry], entry.0) == [entry.1];
    assert r.Err? ==> ValuesOf([entry], "ok") == [];
  }

  /** It gives every result back exactly when a missing success field cannot be read; else it swallows each error. */
  lemma TryOkFirstIff<T(!new), E(!new)>(okCodec: Codec<T>, errCodec: Codec<E>, someError: E)
    requires okCodec.Lawful() && errCodec.Lawful()
    ensures okCodec.missing.None? <==>
            forall r :: TryOkFirst(Encode(r, okCodec, errCodec).entries, okCodec, errCodec) == Some(r)
  {
    forall r
      ensures TryOkFirst(Encode(r, okCodec, errCodec).entries, okCodec, errCodec) ==
              if r.Err? && okCodec.missing.Some? then Some(Ok(okCodec.missing.value)) else Some(r)
    {
      TryOkFirstOn(r, okCodec, errCodec);
    }
    var bad := Err(someError);
    assert okCodec.missing.Some? ==> TryOkFirst(Encode(bad, okCodec, errCodec).entries, okCodec, errCodec) != Some(bad);
  }

  /** For an optional payload it reads every error as success with nothing, where the visitor returns the error. */
  lemma OptionalSwallowsErrors<T(!new), E(!new)>(inner: Codec<T>, errCodec: Codec<E>, e: E)
    requires errCodec.Lawful()
    ensures var entries := Encode(Err(e), Optional(inner), errCodec).entries;
            && TryOkFirst(entries, Optional(inner), errCodec) == Some(Ok(None))
            && Decodes(entries, Optional(inner), errCodec, Some(Err(e)))
  {
    var r: Result<Option<T>, E> := Err(e);
    TryOkFirstOn(r, Optional(inner), errCodec);
    EncodedDecodes(r, Optional(inner), errCodec);
  }
}
