/** Character classes, trimming and splitting, as the standard library of the source language defines them. */
module Text {
  import opened Wrappers

  /** The Unicode `White_Space` property. */
  predicate IsWhitespace(c: char) {
    var n := c as int;
    || 0x9 <= n <= 0xD || n == 0x20 || n == 0x85 || n == 0xA0 || n == 0x1680 || 0x2000 <= n <= 0x200A
    || n == 0x2028 || n == 0x2029 || n == 0x202F || n == 0x205F || n == 0x3000
  }

  predicate IsAscii(c: char) {
    c as int < 0x80
  }

  function TrimStart(s: string): string {
    if s != [] && IsWhitespace(s[0]) then TrimStart(s[1..]) else s
  }

  function TrimEnd(s: string): string {
    if s != [] && IsWhitespace(s[|s| - 1]) then TrimEnd(s[..|s| - 1]) else s
  }

  function Trim(s: string): string {
    TrimEnd(TrimStart(s))
  }

  /** Trimming takes off exactly the whitespace around a text that starts and ends without any. */
  lemma TrimFinds(a: string, core: string, b: string)
    requires (forall c :: c in a ==> IsWhitespace(c)) && (forall c :: c in b ==> IsWhitespace(c))
    requires core == [] || (!IsWhitespace(core[0]) && !IsWhitespace(core[|core| - 1]))
    ensures Trim(a + (core + b)) == core
  {
    TrimStartFinds(a, core + b);
    if core == [] {
      assert core + b == b && b + [] == b && [] + b == b;
      TrimStartFinds(b, []);
    } else {
      assert (core + b)[0] == core[0];
      TrimEndFinds(core, b);
    }
  }

  lemma {:induction false} TrimStartFinds(a: string, t: string)
    requires forall c :: c in a ==> IsWhitespace(c)
    ensures TrimStart(a + t) == TrimStart(t)
  {
    if a == [] {
      assert a + t == t;
    } else {
      assert a[0] in a && (a + t)[1..] == a[1..] + t;
      TrimStartFinds(a[1..], t);
    }
  }

  lemma {:induction false} TrimEndFinds(core: string, b: string)
    requires core != [] && !IsWhitespace(core[|core| - 1]) && forall c :: c in b ==> IsWhitespace(c)
    ensures TrimEnd(core + b) == core
    decreases |b|
  {
    var s := core + b;
    if b == [] {
      assert s == core;
    } else {
      var front := b[..|b| - 1];
      assert s[..|s| - 1] == core + front && s[|s| - 1] == b[|b| - 1] && b[|b| - 1] in b;
      TrimEndFinds(core, front);
    }
  }

  lemma Assoc<T>(a: seq<T>, b: seq<T>, c: seq<T>)
    ensures (a + b) + c == a + (b + c)
  {
  }

  /** The parts before and after the first `c`. */
  function SplitOnce(s: string, c: char): (r: Option<(string, string)>)
    ensures r.Some? ==> s == r.value.0 + ([c] + r.value.1) && c !in r.value.0
    ensures r.None? <==> c !in s
  {
    if s == [] then None
    else if s[0] == c then
      assert s == [] + ([c] + s[1..]);
      Some(([], s[1..]))
    else
      match SplitOnce(s[1..], c)
      case None => None
      case Some(p) =>
        assert s == [s[0]] + s[1..];
        assert s == ([s[0]] + p.0) + ([c] + p.1) by { Assoc([s[0]], p.0, [c] + p.1); }
        Some(([s[0]] + p.0, p.1))
  }

  lemma {:induction false} SplitOnceFinds(a: string, c: char, b: string)
    requires c !in a
    ensures SplitOnce(a + ([c] + b), c) == Some((a, b))
  {
    if a == [] {
      assert a + ([c] + b) == [c] + b;
      assert ([c] + b)[1..] == b;
    } else {
      var head, rest := a[0], a[1..];
      assert a == [head] + rest && head in a;
      Assoc([head], rest, [c] + b);
      SplitOnceFinds(rest, c, b);
      SplitOnceCons(head, rest + ([c] + b), c);
    }
  }

  lemma SplitOnceCons(head: char, t: string, c: char)
    requires head != c && SplitOnce(t, c).Some?
    ensures SplitOnce([head] + t, c) == Some(([head] + SplitOnce(t, c).value.0, SplitOnce(t, c).value.1))
  {
    assert ([head] + t)[1..] == t;
  }

  /** The part before the first `c`, or everything. */
  function Before(s: string, c: char): (r: string)
    ensures c !in r
  {
    match SplitOnce(s, c)
    case Some((before, _)) => before
    case None => s
  }

  /** The parts between any two `c`; at least one. */
  function Split(s: string, c: char): (parts: seq<string>)
    ensures parts != []
    decreases |s|
  {
    match SplitOnce(s, c)
    case None => [s]
    case Some(p) => [p.0] + Split(p.1, c)
  }

  function Join(parts: seq<string>, c: char): string
    requires parts != []
  {
    if |parts| == 1 then parts[0] else parts[0] + ([c] + Join(parts[1..], c))
  }

  lemma {:induction false} JoinSplit(s: string, c: char)
    ensures Join(Split(s, c), c) == s
    decreases |s|
  {
    if SplitOnce(s, c).Some? {
      var p := SplitOnce(s, c).value;
      JoinSplit(p.1, c);
      assert Split(s, c)[1..] == Split(p.1, c);
    }
  }

  lemma {:induction false} SplitJoin(parts: seq<string>, c: char)
    requires parts != [] && forall p :: p in parts ==> c !in p
    ensures Split(Join(parts, c), c) == parts
  {
    assert parts[0] in parts;
    if |parts| > 1 {
      assert forall p :: p in parts[1..] ==> p in parts;
      SplitJoin(parts[1..], c);
      SplitOnceFinds(parts[0], c, Join(parts[1..], c));
      assert parts == [parts[0]] + parts[1..];
    }
  }

  lemma {:induction false} SplitFree(s: string, c: char)
    ensures forall p :: p in Split(s, c) ==> c !in p
    decreases |s|
  {
    if SplitOnce(s, c).Some? { SplitFree(SplitOnce(s, c).value.1, c); }
  }
}
