/** Catalog metadata collected along a chain of providers. */
module Catalog {
  import opened Wrappers
  import opened JsonValues

  datatype Metadata = Metadata(
    tags: seq<string>,
    owner: Option<string>,
    docUrl: Option<string>,
    sampleArguments: Option<Json>,
    trustRequired: Option<string>,
    requiresApproval: Option<bool>,
    maturity: Option<string>,
    attributes: map<string, string>)

  function OrElse<T>(first: Option<T>, second: Option<T>): Option<T> {
    if first.Some? then first else second
  }

  function Push(tags: seq<string>, tag: string): seq<string> {
    if tag in tags then tags else tags + [tag]
  }

  /** Appends the tags that are not there yet, one by one. */
  function AppendNew(tags: seq<string>, more: seq<string>): seq<string> {
    if more == [] then tags else Push(AppendNew(tags, more[..|more| - 1]), more[|more| - 1])
  }

  function Merge(a: Metadata, b: Metadata): Metadata {
    Metadata(
      AppendNew(a.tags, b.tags),
      OrElse(a.owner, b.owner),
      OrElse(a.docUrl, b.docUrl),
      OrElse(a.sampleArguments, b.sampleArguments),
      OrElse(a.trustRequired, b.trustRequired),
      OrElse(a.requiresApproval, b.requiresApproval),
      OrElse(a.maturity, b.maturity),
      b.attributes + a.attributes)
  }

  class CatalogMetadata {
    var tags: seq<string>
    var owner: Option<string>
    var docUrl: Option<string>
    var sampleArguments: Option<Json>
    var trustRequired: Option<string>
    var requiresApproval: Option<bool>
    var maturity: Option<string>
    var attributes: map<string, string>

    function Abs(): Metadata
      reads this
    {
      Metadata(tags, owner, docUrl, sampleArguments, trustRequired, requiresApproval, maturity, attributes)
    }

    constructor (m: Metadata)
      ensures Abs() == m
    {
      tags, owner, docUrl, sampleArguments := m.tags, m.owner, m.docUrl, m.sampleArguments;
      trustRequired, requiresApproval, maturity := m.trustRequired, m.requiresApproval, m.maturity;
      attributes := m.attributes;
    }

    method MergeFrom(incoming: Metadata)
      modifies this
      ensures Abs() == Merge(old(Abs()), incoming)
    {
      if owner.None? { owner := incoming.owner; }
      if docUrl.None? { docUrl := incoming.docUrl; }
      if sampleArguments.None? { sampleArguments := incoming.sampleArguments; }
      if trustRequired.None? { trustRequired := incoming.trustRequired; }
      if requiresApproval.None? { requiresApproval := incoming.requiresApproval; }
      if maturity.None? { maturity := incoming.maturity; }
      MergeTags(incoming.tags);
      MergeAttributes(incoming.attributes);
    }

    method MergeTags(more: seq<string>)
      modifies `tags
      ensures tags == AppendNew(old(tags), more)
    {
      for i := 0 to |more|
        invariant tags == AppendNew(old(tags), more[..i])
      {
        if more[i] !in tags {
          tags := tags + [more[i]];
        }
        assert more[..i + 1][..i] == more[..i];
      }
      assert more[..|more|] == more;
    }

    method MergeAttributes(more: map<string, string>)
      modifies `attributes
      ensures attributes == more + old(attributes)
    {
      var keys := more.Keys;
      while keys != {}
        invariant keys <= more.Keys
        invariant attributes == (more - keys) + old(attributes)
        decreases |keys|
      {
        var k :| k in keys;
        if k !in attributes {
          attributes := attributes[k := more[k]];
        }
        keys := keys - {k};
      }
      assert more - {} == more;
    }
  }

  // ---- Merging a chain

  /** The providers of a chain merged one after the other, the first one starting. */
  function Fold(chain: seq<Metadata>): Metadata
    requires chain != []
  {
    if |chain| == 1 then chain[0] else Merge(Fold(chain[..|chain| - 1]), chain[|chain| - 1])
  }

  lemma {:induction false} AppendKeeps(a: seq<string>, b: seq<string>)
    ensures forall x :: x in AppendNew(a, b) <==> x in a || x in b
  {
    if b != [] {
      var front, last := b[..|b| - 1], b[|b| - 1];
      AppendKeeps(a, front);
      assert b == front + [last];
    }
  }

  lemma {:induction false} AppendAssociative(a: seq<string>, b: seq<string>, c: seq<string>)
    ensures AppendNew(AppendNew(a, b), c) == AppendNew(a, AppendNew(b, c))
    decreases |c|
  {
    if c != [] {
      var front, last := c[..|c| - 1], c[|c| - 1];
      var known := AppendNew(b, front);
      AppendAssociative(a, b, front);
      AppendKeeps(a, known);
      if last !in known { assert (known + [last])[..|known|] == known; }
    }
  }

  lemma MergeAssociative(a: Metadata, b: Metadata, c: Metadata)
    ensures Merge(Merge(a, b), c) == Merge(a, Merge(b, c))
  {
    AppendAssociative(a.tags, b.tags, c.tags);
    assert c.attributes + (b.attributes + a.attributes) == (c.attributes + b.attributes) + a.attributes;
  }

  /** A way of bracketing a chain. */
  datatype Bracketing = One(m: Metadata) | Both(left: Bracketing, right: Bracketing)

  function Chain(t: Bracketing): (chain: seq<Metadata>)
    ensures chain != []
  {
    match t
    case One(m) => [m]
    case Both(l, r) => Chain(l) + Chain(r)
  }

  function Evaluate(t: Bracketing): Metadata {
    match t
    case One(m) => m
    case Both(l, r) => Merge(Evaluate(l), Evaluate(r))
  }

  lemma {:induction false} FoldConcat(a: seq<Metadata>, b: seq<Metadata>)
    requires a != [] && b != []
    ensures Fold(a + b) == Merge(Fold(a), Fold(b))
    decreases |b|
  {
    var front, last := b[..|b| - 1], b[|b| - 1];
    var whole := a + b;
    assert whole[..|whole| - 1] == a + front;
    assert Fold(whole) == Merge(Fold(a + front), last);
    if front == [] {
      assert a + front == a;
    } else {
      FoldConcat(a, front);
      MergeAssociative(Fold(a), Fold(front), last);
      assert Fold(b) == Merge(Fold(front), last);
    }
  }

  /** Every bracketing of a chain gives the same metadata. */
  lemma {:induction false} BracketingIrrelevant(t: Bracketing)
    ensures Evaluate(t) == Fold(Chain(t))
  {
    match t
    case One(m) =>
    case Both(l, r) =>
      BracketingIrrelevant(l);
      BracketingIrrelevant(r);
      FoldConcat(Chain(l), Chain(r));
  }

  // ---- Who provides what

  datatype Field = Owner | DocUrl | SampleArguments | TrustRequired | RequiresApproval | Maturity | Attribute(key: string)

  datatype Value = Text(text: string) | Arguments(json: Json) | Flag(flag: bool)

  function AsText(o: Option<string>): Option<Value> {
    if o.Some? then Some(Text(o.value)) else None
  }

  /** What a provider sets a field to, if it does. */
  function Setting(m: Metadata, f: Field): Option<Value> {
    match f
    case Owner => AsText(m.owner)
    case DocUrl => AsText(m.docUrl)
    case SampleArguments => if m.sampleArguments.Some? then Some(Arguments(m.sampleArguments.value)) else None
    case TrustRequired => AsText(m.trustRequired)
    case RequiresApproval => if m.requiresApproval.Some? then Some(Flag(m.requiresApproval.value)) else None
    case Maturity => AsText(m.maturity)
    case Attribute(k) => if k in m.attributes then Some(Text(m.attributes[k])) else None
  }

  predicate UnsetBefore(chain: seq<Metadata>, f: Field, n: nat) {
    forall j :: 0 <= j < n && j < |chain| ==> Setting(chain[j], f) == None
  }

  /** `value` is what the first provider that sets the field says, or nothing if none does. */
  predicate FirstSetting(chain: seq<Metadata>, f: Field, value: Option<Value>) {
    if value.None? then UnsetBefore(chain, f, |chain|)
    else exists i :: 0 <= i < |chain| && Setting(chain[i], f) == value && UnsetBefore(chain, f, i)
  }

  lemma FirstSettingExtends(chain: seq<Metadata>, m: Metadata, f: Field, value: Option<Value>)
    requires FirstSetting(chain, f, value)
    ensures FirstSetting(chain + [m], f, OrElse(value, Setting(m, f)))
  {
    var longer := chain + [m];
    assert forall j :: 0 <= j < |chain| ==> longer[j] == chain[j];
    if value.Some? {
      var i :| 0 <= i < |chain| && Setting(chain[i], f) == value && UnsetBefore(chain, f, i);
      assert Setting(longer[i], f) == value && UnsetBefore(longer, f, i);
    } else if Setting(m, f).Some? {
      var last := |chain|;
      assert Setting(longer[last], f) == Setting(m, f) && UnsetBefore(longer, f, last);
    }
  }

  lemma MergeSetting(a: Metadata, b: Metadata, f: Field)
    ensures Setting(Merge(a, b), f) == OrElse(Setting(a, f), Setting(b, f))
  {
  }

  /** Each scalar and each attribute of the merged metadata is that of the first provider setting it. */
  lemma {:induction false} FirstProviderDecides(chain: seq<Metadata>, f: Field)
    requires chain != []
    ensures FirstSetting(chain, f, Setting(Fold(chain), f))
  {
    if |chain| == 1 {
      if Setting(chain[0], f).Some? { assert UnsetBefore(chain, f, 0); }
    } else {
      var front, last := chain[..|chain| - 1], chain[|chain| - 1];
      FirstProviderDecides(front, f);
      MergeSetting(Fold(front), last, f);
      FirstSettingExtends(front, last, f, Setting(Fold(front), f));
      assert chain == front + [last];
    }
  }

  // ---- Tags

  function TagsOf(chain: seq<Metadata>): seq<string> {
    if chain == [] then [] else TagsOf(chain[..|chain| - 1]) + chain[|chain| - 1].tags
  }

  lemma {:induction false} AppendConcat(a: seq<string>, b: seq<string>, c: seq<string>)
    ensures AppendNew(a, b + c) == AppendNew(AppendNew(a, b), c)
    decreases |c|
  {
    if c == [] {
      assert b + c == b;
    } else {
      var front := c[..|c| - 1];
      assert (b + c)[..|b + c| - 1] == b + front;
      AppendConcat(a, b, front);
    }
  }

  lemma {:induction false} FoldTags(chain: seq<Metadata>)
    requires chain != []
    ensures Fold(chain).tags == AppendNew(chain[0].tags, TagsOf(chain[1..]))
  {
    if |chain| == 1 {
      assert chain[1..] == [];
    } else {
      var front, last, later := chain[..|chain| - 1], chain[|chain| - 1], chain[1..];
      FoldTags(front);
      assert later[..|later| - 1] == front[1..] && later[|later| - 1] == last;
      AppendConcat(chain[0].tags, TagsOf(front[1..]), last.tags);
    }
  }

  ghost predicate FirstSeen(tags: seq<string>, more: seq<string>, j: nat)
    requires j < |more|
  {
    more[j] !in tags && more[j] !in more[..j]
  }

  /** `picked` lists, in order, the places of `more` where a tag turns up that is neither in `tags` nor before. */
  ghost predicate PicksFirstSeen(tags: seq<string>, more: seq<string>, picked: seq<nat>) {
    && (forall i :: 0 <= i < |picked| ==> picked[i] < |more|)
    && (forall i, j :: 0 <= i < j < |picked| ==> picked[i] < picked[j])
    && (forall j :: 0 <= j < |more| ==> (j in picked <==> FirstSeen(tags, more, j)))
  }

  function Picked(more: seq<string>, picked: seq<nat>): (r: seq<string>)
    requires forall i :: 0 <= i < |picked| ==> picked[i] < |more|
    ensures |r| == |picked| && forall i :: 0 <= i < |r| ==> r[i] == more[picked[i]]
  {
    seq(|picked|, i requires 0 <= i < |picked| => more[picked[i]])
  }

  lemma {:induction false} AppendPicks(tags: seq<string>, more: seq<string>) returns (picked: seq<nat>)
    ensures PicksFirstSeen(tags, more, picked)
    ensures AppendNew(tags, more) == tags + Picked(more, picked)
  {
    if more == [] {
      picked := [];
    } else {
      var n, front, last := |more| - 1, more[..|more| - 1], more[|more| - 1];
      picked := AppendPicks(tags, front);
      AppendKeeps(tags, front);
      assert forall j :: 0 <= j < n ==> front[..j] == more[..j];
      assert forall j :: 0 <= j < n ==> FirstSeen(tags, front, j) == FirstSeen(tags, more, j);
      assert Picked(front, picked) == Picked(more, picked);
      if last !in AppendNew(tags, front) {
        assert Picked(more, picked + [n]) == Picked(more, picked) + [last];
        picked := picked + [n];
      }
    }
  }

  /** The merged tags: the first provider's, then the later ones in the order in which they first turn up. */
  lemma FirstTagsFirst(chain: seq<Metadata>) returns (picked: seq<nat>)
    requires chain != []
    ensures var later := TagsOf(chain[1..]);
      PicksFirstSeen(chain[0].tags, later, picked) && Fold(chain).tags == chain[0].tags + Picked(later, picked)
  {
    FoldTags(chain);
    picked := AppendPicks(chain[0].tags, TagsOf(chain[1..]));
  }
}
