/** Layering an operator's JSON schema over a derived one. */
module MergeSchema {
  import opened Wrappers
  import opened JsonValues

  /** What a missing or null entry of the base counts as. */
  function FieldOrNull(fields: map<string, Json>, k: string): Json {
    if k in fields then fields[k] else Null
  }

  function Merge(base: Json, overlay: Json): Json
    decreases overlay
  {
    if base.Object? && overlay.Object? then
      Object(map k | k in base.fields.Keys + overlay.fields.Keys ::
        if k in overlay.fields then Merge(FieldOrNull(base.fields, k), overlay.fields[k]) else base.fields[k])
    else
      overlay
  }

  /** `b` is the base with every overlay entry merged in, except those still in `left`. */
  predicate PartlyMerged(base: map<string, Json>, o: map<string, Json>, left: set<string>, b: map<string, Json>) {
    && b.Keys == base.Keys + (o.Keys - left)
    && forall k :: k in b ==>
      b[k] == if k in o && k !in left then Merge(FieldOrNull(base, k), o[k]) else base[k]
  }

  lemma PutMerged(base: map<string, Json>, o: map<string, Json>, left: set<string>, b: map<string, Json>, k: string)
    requires PartlyMerged(base, o, left, b) && k in left && k in o
    ensures FieldOrNull(b, k) == FieldOrNull(base, k)
    ensures PartlyMerged(base, o, left - {k}, (b - {k})[k := Merge(FieldOrNull(base, k), o[k])])
  {
  }

  lemma AllMerged(base: Json, overlay: Json, b: map<string, Json>)
    requires base.Object? && overlay.Object? && PartlyMerged(base.fields, overlay.fields, {}, b)
    ensures Object(b) == Merge(base, overlay)
  {
    assert b == Merge(base, overlay).fields;
  }

  /** The loop over the overlay's entries, each taken out of the base and put back merged. */
  method MergeInPlace(base: Json, overlay: Json) returns (merged: Json)
    ensures merged == Merge(base, overlay)
    decreases overlay
  {
    if !base.Object? || !overlay.Object? {
      return overlay;
    }
    var b, o := base.fields, overlay.fields;
    var keys := o.Keys;
    while keys != {}
      invariant keys <= o.Keys
      invariant PartlyMerged(base.fields, o, keys, b)
      decreases |keys|
    {
      var k :| k in keys;
      PutMerged(base.fields, o, keys, b, k);
      var v, existing := o[k], FieldOrNull(b, k);
      b := b - {k};
      var entry := v;
      if existing != Null {
        entry := MergeInPlace(existing, v);
      }
      b := b[k := entry];
      keys := keys - {k};
    }
    AllMerged(base, overlay, b);
    merged := Object(b);
  }

  // ---- Applying an overlay twice

  lemma {:induction false} MergeSelf(o: Json)
    ensures Merge(o, o) == o
  {
    if o.Object? {
      forall k | k in o.fields
        ensures Merge(o, o).fields[k] == o.fields[k]
      {
        MergeSelf(o.fields[k]);
      }
      assert Merge(o, o).fields == o.fields;
    }
  }

  /** Merging the same overlay again changes nothing. */
  lemma {:induction false} MergeTwice(b: Json, o: Json)
    ensures Merge(Merge(b, o), o) == Merge(b, o)
    decreases o
  {
    if o.Object? {
      if b.Object? {
        var m := Merge(b, o);
        forall k | k in m.fields
          ensures Merge(m, o).fields[k] == m.fields[k]
        {
          if k in o.fields { MergeTwice(FieldOrNull(b.fields, k), o.fields[k]); }
        }
        assert Merge(m, o).fields == m.fields;
      } else {
        MergeSelf(o);
      }
    }
  }

  // ---- What is found at each path

  datatype Probe = Present(value: Json) | Absent | Blocked

  /** What the overlay says about a path: it holds a value there, it says nothing, or a non-object stands in the way. */
  function Look(overlay: Json, path: seq<string>): Probe {
    if path == [] then Present(overlay)
    else if !overlay.Object? then Blocked
    else if path[0] in overlay.fields then Look(overlay.fields[path[0]], path[1..])
    else Absent
  }

  function Field(v: Json, path: seq<string>): Option<Json> {
    At(v, seq(|path|, i requires 0 <= i < |path| => Key(path[i])))
  }

  lemma FieldStep(v: Json, path: seq<string>)
    requires path != []
    ensures Field(v, path) ==
      if v.Object? && path[0] in v.fields then Field(v.fields[path[0]], path[1..]) else None
  {
    var keys := seq(|path|, i requires 0 <= i < |path| => Key(path[i]));
    assert keys[1..] == seq(|path[1..]|, i requires 0 <= i < |path[1..]| => Key(path[1..][i]));
  }

  lemma NullHasNoFields(path: seq<string>)
    requires path != []
    ensures Field(Null, path) == None
  {
    FieldStep(Null, path);
  }

  function OrNull(o: Option<Json>): Json {
    if o.Some? then o.value else Null
  }

  /** The whole result, path by path: overlay over base where the overlay speaks, the base where it is silent. */
  lemma {:induction false} MergeField(b: Json, o: Json, path: seq<string>)
    ensures Field(Merge(b, o), path) ==
      match Look(o, path)
      case Present(v) => Some(Merge(OrNull(Field(b, path)), v))
      case Absent => Field(b, path)
      case Blocked => None
    decreases |path|
  {
    if path != [] {
      var m, k, rest := Merge(b, o), path[0], path[1..];
      FieldStep(m, path);
      FieldStep(b, path);
      if o.Object? && k in o.fields {
        if b.Object? {
          MergeField(FieldOrNull(b.fields, k), o.fields[k], rest);
          if rest != [] { NullHasNoFields(rest); }
        } else {
          MergeField(Null, o.fields[k], rest);
          if rest != [] { NullHasNoFields(rest); }
        }
      }
    }
  }

  /** An overlay value that is not an object wins at its path. */
  lemma OverlayWins(b: Json, o: Json, path: seq<string>)
    requires Field(o, path).Some? && !Field(o, path).value.Object?
    ensures Field(Merge(b, o), path) == Field(o, path)
  {
    MergeField(b, o, path);
    LookPresent(o, path);
  }

  lemma {:induction false} LookPresent(o: Json, path: seq<string>)
    ensures Field(o, path) == if Look(o, path).Present? then Some(Look(o, path).value) else None
    decreases |path|
  {
    if path != [] {
      FieldStep(o, path);
      if o.Object? && path[0] in o.fields { LookPresent(o.fields[path[0]], path[1..]); }
    }
  }

  /** Where the overlay has an object there is one, with the keys of both: an empty one still replaces a non-object. */
  lemma ObjectsJoin(b: Json, o: Json, path: seq<string>)
    requires Field(o, path).Some? && Field(o, path).value.Object?
    ensures var r, was := Field(Merge(b, o), path), Field(b, path);
            r.Some? && r.value.Object? && r.value.fields.Keys ==
              Field(o, path).value.fields.Keys +
              (if was.Some? && was.value.Object? then was.value.fields.Keys else {})
  {
    MergeField(b, o, path);
    LookPresent(o, path);
  }

  // ---- Associativity

  /** Laying `c` over `a` leaves nothing of `a`. */
  predicate Absorbs(a: Json, c: Json)
    decreases c
  {
    a.Object? && c.Object? ==>
      forall k :: k in a.fields ==> k in c.fields && Absorbs(a.fields[k], c.fields[k])
  }

  lemma {:induction false} AbsorbsIff(a: Json, c: Json)
    ensures Merge(a, c) == c <==> Absorbs(a, c)
    decreases c
  {
    if a.Object? && c.Object? {
      var m := Merge(a, c);
      forall k | k in c.fields
        ensures Merge(FieldOrNull(a.fields, k), c.fields[k]) == c.fields[k] <==>
                Absorbs(FieldOrNull(a.fields, k), c.fields[k])
      {
        AbsorbsIff(FieldOrNull(a.fields, k), c.fields[k]);
      }
      if Absorbs(a, c) {
        assert m.fields.Keys == c.fields.Keys;
        assert m.fields == c.fields;
      } else {
        var k :| k in a.fields && !(k in c.fields && Absorbs(a.fields[k], c.fields[k]));
        assert k in m.fields;
        assert k in c.fields ==> m.fields[k] != c.fields[k];
      }
    }
  }

  /** Wherever first and third are objects and the middle is not, the third must absorb the first. */
  predicate NoLoss(a: Json, b: Json, c: Json)
    decreases c
  {
    a.Object? && c.Object? ==>
      if b.Object? then
        forall k :: k in a.fields && k in b.fields && k in c.fields ==> NoLoss(a.fields[k], b.fields[k], c.fields[k])
      else
        Absorbs(a, c)
  }

  predicate Associates(a: Json, b: Json, c: Json) {
    Merge(Merge(a, b), c) == Merge(a, Merge(b, c))
  }

  /** Merging associates exactly when nothing is lost. */
  lemma {:induction false} AssociatesIff(a: Json, b: Json, c: Json)
    ensures Associates(a, b, c) <==> NoLoss(a, b, c)
    decreases c
  {
    if a.Object? && c.Object? {
      if !b.Object? {
        AbsorbsIff(a, c);
      } else {
        var l, r := Merge(Merge(a, b), c), Merge(a, Merge(b, c));
        assert l.fields.Keys == r.fields.Keys;
        forall k | k in l.fields
          ensures l.fields[k] == r.fields[k] <==>
            (k in a.fields && k in b.fields && k in c.fields ==> NoLoss(a.fields[k], b.fields[k], c.fields[k]))
        {
          AssociatesAtKey(a.fields, b.fields, c.fields, k);
          if k in a.fields && k in b.fields && k in c.fields {
            AssociatesIff(a.fields[k], b.fields[k], c.fields[k]);
          }
        }
        if NoLoss(a, b, c) {
          assert l.fields == r.fields;
        } else {
          var k :| k in a.fields && k in b.fields && k in c.fields && !NoLoss(a.fields[k], b.fields[k], c.fields[k]);
          assert l.fields[k] != r.fields[k];
        }
      }
    }
  }

  lemma AssociatesAtKey(a: map<string, Json>, b: map<string, Json>, c: map<string, Json>, k: string)
    requires k in a || k in b || k in c
    ensures var l, r := Merge(Merge(Object(a), Object(b)), Object(c)), Merge(Object(a), Merge(Object(b), Object(c)));
      l.fields[k] == r.fields[k] <==> (k in a && k in b && k in c ==> Associates(a[k], b[k], c[k]))
  {
  }

  /** The sufficient condition by paths: no path has objects in first and third operand and something else between. */
  lemma {:induction false} AssociatesByPaths(a: Json, b: Json, c: Json)
    requires forall path :: !Gap(a, b, c, path)
    ensures Associates(a, b, c)
  {
    if !NoLoss(a, b, c) { var path := LossHasGap(a, b, c); }
    AssociatesIff(a, b, c);
  }

  predicate IsObjectAt(v: Json, path: seq<string>) {
    Field(v, path).Some? && Field(v, path).value.Object?
  }

  predicate Gap(a: Json, b: Json, c: Json, path: seq<string>) {
    IsObjectAt(a, path) && IsObjectAt(c, path) && Field(b, path).Some? && !Field(b, path).value.Object?
  }

  lemma {:induction false} LossHasGap(a: Json, b: Json, c: Json) returns (path: seq<string>)
    requires !NoLoss(a, b, c)
    ensures Gap(a, b, c, path)
    decreases c
  {
    if !b.Object? {
      path := [];
    } else {
      var k :| k in a.fields && k in b.fields && k in c.fields && !NoLoss(a.fields[k], b.fields[k], c.fields[k]);
      var rest := LossHasGap(a.fields[k], b.fields[k], c.fields[k]);
      path := [k] + rest;
      assert path[1..] == rest;
      FieldStep(a, path);
      FieldStep(b, path);
      FieldStep(c, path);
    }
  }

  /** A null between two objects wipes out the first on one side only: that matters unless the third absorbs it. */
  lemma NullBetweenObjects(a: Json, c: Json)
    requires a.Object? && c.Object?
    ensures Merge(Merge(a, Null), c) == c && Merge(a, Merge(Null, c)) == Merge(a, c)
    ensures Associates(a, Null, c) <==> Absorbs(a, c)
  {
    AbsorbsIff(a, c);
  }

  /** The empty object absorbs nothing: a field of the first operand is lost on the left and kept on the right. */
  lemma NullLosesField(a: Json, k: string)
    requires a.Object? && k in a.fields
    ensures !Associates(a, Null, Object(map[]))
  {
    NullBetweenObjects(a, Object(map[]));
  }
}
