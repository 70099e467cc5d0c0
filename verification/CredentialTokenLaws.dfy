/** What the credential scanner promises of extraction and substitution. */
module CredentialTokenLaws {
  import opened Wrappers
  import opened Text
  import opened CredentialTokens

  // ---- The segmentation

  lemma CutBlock(s: string, n: nat) returns (inner: string, rest: string)
    requires n + 3 <= |s| && s[0] == '$' && s[1] == '{' && s[n + 2] == '}'
    ensures inner == s[2..n + 2] && rest == s[n + 3..] && |inner| == n && |rest| < |s|
    ensures s == "${" + inner + "}" + rest && s[2..] == inner + "}" + rest
  {
    inner, rest := s[2..n + 2], s[n + 3..];
    assert s[2..] == inner + ([s[n + 2]] + rest);
    assert inner + ([s[n + 2]] + rest) == inner + "}" + rest;
    assert s == s[..2] + s[2..];
    assert "${" + (inner + "}" + rest) == "${" + inner + "}" + rest;
  }

  /** The first segment of a text, and the rest. */
  lemma Cut(s: string) returns (x: Segment, rest: string)
    requires s != []
    ensures Segments(s) == [x] + Segments(rest) && |rest| < |s| && s == SegmentText(x) + rest
    ensures x.Block? <==> BlockEnd(s).At?
    ensures x.Block? ==> Match(x.inner + "}" + rest, 1, Code) == At(|x.inner|)
    ensures x.Plain? ==> s[0] == x.c && rest == s[1..]
  {
    if BlockEnd(s).At? {
      var n := BlockEnd(s).index;
      var inner;
      inner, rest := CutBlock(s, n);
      x := Block(inner);
    } else {
      x, rest := Plain(s[0]), s[1..];
    }
  }

  /** Nothing is lost or added by cutting a text into segments. */
  lemma {:induction false} SegmentsPartition(s: string)
    ensures AllText(Segments(s)) == s
    decreases |s|
  {
    if s != [] {
      var x, rest := Cut(s);
      SegmentsPartition(rest);
      assert ([x] + Segments(rest))[1..] == Segments(rest);
    }
  }

  /** Only the extracted tokens are looked up. */
  lemma {:induction false} OnlyTokensAreLookedUp(segments: seq<Segment>, a: map<string, string>, b: map<string, string>)
    requires forall t :: t in Tokens(segments) ==> (t in a <==> t in b) && (t in a ==> a[t] == b[t])
    ensures Substituted(segments, a) == Substituted(segments, b)
  {
    if segments != [] {
      var x, rest := segments[0], segments[1..];
      assert Token(x).Some? ==> Token(x).value in TokenOf(x) + Tokens(rest);
      assert forall t :: t in Tokens(rest) ==> t in TokenOf(x) + Tokens(rest);
      OnlyTokensAreLookedUp(rest, a, b);
    }
  }

  ghost predicate PlainAscii(segments: seq<Segment>) {
    forall x :: x in segments && x.Plain? ==> IsAscii(x.c)
  }

  lemma {:induction false} UnresolvedLength(segments: seq<Segment>, resolved: map<string, string>)
    requires forall t :: t in Tokens(segments) ==> t !in resolved
    ensures |Substituted(segments, resolved)| >= |AllText(segments)|
    ensures |Substituted(segments, resolved)| == |AllText(segments)| <==> PlainAscii(segments)
    ensures PlainAscii(segments) ==> Substituted(segments, resolved) == AllText(segments)
  {
    if segments != [] {
      var x, rest := segments[0], segments[1..];
      assert Token(x).Some? ==> Token(x).value in TokenOf(x) + Tokens(rest);
      assert forall t :: t in Tokens(rest) ==> t in TokenOf(x) + Tokens(rest);
      UnresolvedLength(rest, resolved);
      assert segments == [x] + rest;
      assert PlainAscii(segments) <==> (x.Plain? ==> IsAscii(x.c)) && PlainAscii(rest);
    }
  }

  /**
    With none of its tokens resolved, a text comes back unchanged if and only if every
    character outside its blocks is ASCII; any other is written as several.
  */
  lemma UnresolvedIsUnchangedIff(s: string, resolved: map<string, string>)
    requires forall t :: t in Tokens(Segments(s)) ==> t !in resolved
    ensures Substituted(Segments(s), resolved) == s <==> PlainAscii(Segments(s))
  {
    SegmentsPartition(s);
    UnresolvedLength(Segments(s), resolved);
  }

  // ---- Matching in a changed text

  lemma {:induction false} MatchPrefix(s: string, t: string, depth: nat, m: Mode)
    requires depth > 0 && Match(s, depth, m).At?
    ensures Match(s[..Match(s, depth, m).index + 1] + t, depth, m) == Match(s, depth, m)
  {
    var e := Match(s, depth, m).index;
    var u := s[..e + 1] + t;
    assert u[0] == s[0];
    var d, n := NextDepth(m, depth, s[0]), NextMode(m, s[0]);
    if d > 0 {
      MatchPrefix(s[1..], t, d, n);
      assert u[1..] == s[1..][..Match(s[1..], d, n).index + 1] + t;
    }
  }

  /** Below a matched brace the search goes on, one level up, outside any string. */
  lemma {:induction false} MatchOver(s: string, depth: nat, more: nat, all: nat, m: Mode, next: nat)
    requires depth > 0 && more > 0 && all == depth + more
    requires 0 < next <= |s| && Match(s, depth, m) == At(next - 1)
    ensures Match(s, all, m) == AddTo(Match(s[next..], more, Code), next)
  {
    var d, n := NextDepth(m, depth, s[0]), NextMode(m, s[0]);
    if d == 0 {
      assert next == 1 && NextDepth(m, all, s[0]) == more && n == Code;
    } else {
      var before := next - 1;
      var allBelow := NextDepth(m, all, s[0]);
      MatchOver(s[1..], d, more, allBelow, n, before);
      assert s[1..][before..] == s[next..];
    }
  }

  predicate NoBraces(v: string) {
    '{' !in v && '}' !in v && '"' !in v
  }

  lemma {:induction false} MatchPast(v: string, t: string, depth: nat)
    requires depth > 0 && NoBraces(v)
    ensures Match(v + t, depth, Code) == AddTo(Match(t, depth, Code), |v|)
  {
    if v == [] {
      assert v + t == t;
    } else {
      assert v[0] in v && (v + t)[1..] == v[1..] + t;
      assert forall c :: c in v[1..] ==> c in v;
      MatchPast(v[1..], t, depth);
    }
  }

  lemma MatchCons(c: char, t: string, depth: nat, below: nat)
    requires depth > 0 && below == NextDepth(Code, depth, c) && below > 0 && c != '"'
    ensures Match([c] + t, depth, Code) == AddTo(Match(t, below, Code), 1)
  {
    assert ([c] + t)[1..] == t;
  }

  // ---- String literals

  /** One step through a string literal: a character that means itself, or a backslash and any character. */
  datatype Piece = Itself(c: char) | Escaping(c: char)

  function Spelled(pieces: seq<Piece>): string {
    if pieces == [] then []
    else
      var p := pieces[0];
      (if p.Itself? then [p.c] else ['\\', p.c]) + Spelled(pieces[1..])
  }

  predicate IsLiteral(pieces: seq<Piece>) {
    forall p :: p in pieces && p.Itself? ==> p.c != '"' && p.c != '\\'
  }

  lemma PositionSum(r: Position, m: nat, n: nat, sum: nat)
    requires sum == m + n
    ensures AddTo(AddTo(r, m), n) == AddTo(r, sum)
  {
  }

  lemma OneInside(c: char, t: string, depth: nat)
    requires depth > 0 && c != '"' && c != '\\'
    ensures Match([c] + t, depth, Quoted) == AddTo(Match(t, depth, Quoted), 1)
  {
    assert ([c] + t)[1..] == t;
  }

  lemma EscapeInside(c: char, t: string, depth: nat)
    requires depth > 0
    ensures Match(['\\', c] + t, depth, Quoted) == AddTo(Match(t, depth, Quoted), 2)
  {
    var s := ['\\', c] + t;
    assert s[1..] == [c] + t && ([c] + t)[1..] == t;
    assert Match(s, depth, Quoted) == AddTo(Match([c] + t, depth, Escaped), 1);
    PositionSum(Match(t, depth, Quoted), 1, 1, 2);
  }

  /** Inside a literal nothing but its end counts: what comes behind the pieces is searched as if they were not there. */
  lemma {:induction false} MatchInside(pieces: seq<Piece>, t: string, depth: nat)
    requires depth > 0 && IsLiteral(pieces)
    ensures Match(Spelled(pieces) + t, depth, Quoted) == AddTo(Match(t, depth, Quoted), |Spelled(pieces)|)
  {
    if pieces == [] {
      assert Spelled(pieces) + t == t;
    } else {
      var p, rest := pieces[0], pieces[1..];
      var first := if p.Itself? then [p.c] else ['\\', p.c];
      assert p in pieces && forall q :: q in rest ==> q in pieces;
      MatchInside(rest, t, depth);
      Assoc(first, Spelled(rest), t);
      if p.Itself? { OneInside(p.c, Spelled(rest) + t, depth); } else { EscapeInside(p.c, Spelled(rest) + t, depth); }
      PositionSum(Match(t, depth, Quoted), |Spelled(rest)|, |first|, |Spelled(pieces)|);
    }
  }

  /** A string literal is passed over whatever it holds, braces, quotes behind backslashes and backslashes included. */
  lemma LiteralSkipped(pieces: seq<Piece>, rest: string, depth: nat)
    requires depth > 0 && IsLiteral(pieces)
    ensures Match(['"'] + (Spelled(pieces) + (['"'] + rest)), depth, Code) ==
            AddTo(Match(rest, depth, Code), |Spelled(pieces)| + 2)
  {
    var inner, more := Spelled(pieces), ['"'] + rest;
    assert (['"'] + (inner + more))[1..] == inner + more && more[1..] == rest;
    MatchInside(pieces, more, depth);
    assert Match(more, depth, Quoted) == AddTo(Match(rest, depth, Code), 1);
    PositionSum(Match(rest, depth, Code), 1, |inner|, |inner| + 1);
    PositionSum(Match(rest, depth, Code), |inner| + 1, 1, |inner| + 2);
  }

  /** One that is not closed swallows the rest of the text, braces included. */
  lemma OpenLiteral(pieces: seq<Piece>, depth: nat)
    requires depth > 0 && IsLiteral(pieces)
    ensures Match(['"'] + Spelled(pieces), depth, Code) == Nowhere
    ensures Match(['"'] + (Spelled(pieces) + ['\\']), depth, Code) == Nowhere
  {
    var inner := Spelled(pieces);
    assert (['"'] + inner)[1..] == inner && inner + [] == inner;
    MatchInside(pieces, [], depth);
    assert (['"'] + (inner + ['\\']))[1..] == inner + ['\\'];
    assert ['\\'][1..] == [];
    MatchInside(pieces, ['\\'], depth);
  }

  lemma BlockAsCons(inner: string, rest: string)
    ensures "${" + inner + "}" + rest == ['$'] + (['{'] + (inner + "}" + rest))
  {
    Assoc("${" + inner, "}", rest);
    Assoc("${", inner, "}" + rest);
    Assoc(inner, "}", rest);
    assert "${" == ['$'] + ['{'];
    Assoc(['$'], ['{'], inner + ("}" + rest));
  }

  /** A whole block changes no depth. */
  lemma MatchPastBlock(inner: string, rest: string, depth: nat)
    requires depth > 0 && Match(inner + "}" + rest, 1, Code) == At(|inner|)
    ensures Match("${" + inner + "}" + rest, depth, Code) == AddTo(Match(rest, depth, Code), |inner| + 3)
  {
    var x := inner + "}" + rest;
    var all, next := depth + 1, |inner| + 1;
    MatchOver(x, 1, depth, all, Code, next);
    assert x[next..] == rest;
    BlockAsCons(inner, rest);
    MatchCons('{', x, depth, all);
    MatchCons('$', ['{'] + x, depth, depth);
  }

  // ---- No token is left

  /** A value that cannot take part in a token. */
  predicate Inert(v: string) {
    v != "" && '$' !in v && NoBraces(v)
  }

  ghost predicate Resolves(s: string, resolved: map<string, string>) {
    '"' !in s && forall t :: t in Tokens(Segments(s)) ==> t in resolved && Inert(resolved[t])
  }

  function Result(s: string, resolved: map<string, string>): string {
    Substituted(Segments(s), resolved)
  }

  lemma ResolvesRest(s: string, x: Segment, rest: string, resolved: map<string, string>)
    requires Resolves(s, resolved) && Segments(s) == [x] + Segments(rest)
    requires forall c :: c in rest ==> c in s
    ensures Resolves(rest, resolved)
    ensures Token(x).Some? ==> Token(x).value in resolved && Inert(resolved[Token(x).value])
    ensures Result(s, resolved) == Rendered(x, resolved) + Result(rest, resolved)
  {
    assert ([x] + Segments(rest))[1..] == Segments(rest);
    assert Tokens(Segments(s)) == TokenOf(x) + Tokens(Segments(rest));
    assert forall t :: t in Tokens(Segments(rest)) ==> t in Tokens(Segments(s));
    assert Token(x).Some? ==> Token(x).value in TokenOf(x);
  }

  lemma BlockStays(inner: string, rest: string, other: string)
    requires Match(inner + "}" + rest, 1, Code) == At(|inner|)
    ensures Match(inner + "}" + other, 1, Code) == At(|inner|)
  {
    var x := inner + "}" + rest;
    MatchPrefix(x, other, 1, Code);
    assert x[..|inner| + 1] == inner + "}";
  }

  /** What a replaced or copied segment looks like to the matcher. */
  lemma MatchPastRendered(x: Segment, rest: string, other: string, resolved: map<string, string>, depth: nat)
    requires depth > 0 && (x.Block? ==> Match(x.inner + "}" + rest, 1, Code) == At(|x.inner|))
    requires x.Plain? ==> x.c != '{' && x.c != '}' && x.c != '"'
    requires Token(x).Some? ==> Token(x).value in resolved && Inert(resolved[Token(x).value])
    ensures Match(Rendered(x, resolved) + other, depth, Code) ==
            AddTo(Match(other, depth, Code), |Rendered(x, resolved)|)
  {
    if x.Block? && !Token(x).Some? {
      BlockStays(x.inner, rest, other);
      MatchPastBlock(x.inner, other, depth);
    } else {
      MatchPast(Rendered(x, resolved), other, depth);
    }
  }

  /** Substitution opens no brace that was closed and closes none that was open. */
  lemma {:induction false} MatchKept(s: string, resolved: map<string, string>, depth: nat)
    requires depth > 0 && Resolves(s, resolved)
    ensures Match(Result(s, resolved), depth, Code).At? <==> Match(s, depth, Code).At?
    decreases |s|
  {
    if s != [] {
      var x, rest := Cut(s);
      ResolvesRest(s, x, rest, resolved);
      var out := Result(rest, resolved);
      if x.Plain? && (x.c == '{' || x.c == '}') {
        assert Rendered(x, resolved) == [x.c];
        assert ([x.c] + out)[1..] == out;
        var d := NextDepth(Code, depth, x.c);
        if d > 0 { MatchKept(rest, resolved, d); }
      } else {
        assert x.Plain? ==> s[0] in s;
        MatchPastRendered(x, rest, out, resolved, depth);
        if x.Block? {
          MatchPastBlock(x.inner, rest, depth);
        } else {
          MatchPast([x.c], rest, depth);
        }
        MatchKept(rest, resolved, depth);
      }
    }
  }

  function Plains(v: string): seq<Segment> {
    if v == [] then [] else [Plain(v[0])] + Plains(v[1..])
  }

  lemma SegmentsCons(c: char, t: string)
    requires !BlockEnd([c] + t).At?
    ensures Segments([c] + t) == [Plain(c)] + Segments(t)
  {
    assert ([c] + t)[1..] == t;
  }

  lemma {:induction false} SegmentsOfPlain(v: string, t: string)
    requires '$' !in v
    ensures Segments(v + t) == Plains(v) + Segments(t)
  {
    if v == [] {
      assert v + t == t;
    } else {
      var c, w := v[0], v[1..];
      assert c in v && forall d :: d in w ==> d in v;
      SegmentsOfPlain(w, t);
      Assoc([c], w, t);
      assert v == [c] + w;
      SegmentsCons(c, w + t);
      Assoc([Plain(c)], Plains(w), Segments(t));
    }
  }

  lemma BlockSlices(inner: string, t: string) returns (s: string)
    ensures s == "${" + inner + "}" + t && |s| == |inner| + 3 + |t|
    ensures s[0] == '$' && s[1] == '{' && s[2..] == inner + "}" + t
    ensures s[2..|inner| + 2] == inner && s[|inner| + 3..] == t
  {
    var x := inner + "}" + t;
    BlockAsCons(inner, t);
    s := ['$'] + (['{'] + x);
    assert s[2..] == x;
    assert x[..|inner|] == inner && x[|inner| + 1..] == t;
    assert s[2..|inner| + 2] == x[..|inner|] && s[|inner| + 3..] == x[|inner| + 1..];
  }

  lemma SegmentsOfBlock(inner: string, t: string)
    requires Match(inner + "}" + t, 1, Code) == At(|inner|)
    ensures Segments("${" + inner + "}" + t) == [Block(inner)] + Segments(t)
  {
    var s := BlockSlices(inner, t);
    assert BlockEnd(s) == At(|inner|);
  }

  lemma {:induction false} NoTokensInPlains(v: string, more: seq<Segment>)
    ensures Tokens(Plains(v) + more) == Tokens(more)
  {
    if v == [] {
      assert Plains(v) + more == more;
    } else {
      assert (Plains(v) + more)[1..] == Plains(v[1..]) + more;
      NoTokensInPlains(v[1..], more);
    }
  }

  // ---- What is written and what is extracted, piece by piece

  lemma PlainsThrough(before: string, rest: string)
    requires '$' !in before
    ensures Tokens(Segments(before + rest)) == Tokens(Segments(rest))
  {
    SegmentsOfPlain(before, rest);
    NoTokensInPlains(before, Segments(rest));
  }

  lemma {:induction false} SubstitutedPlains(v: string, more: seq<Segment>, resolved: map<string, string>)
    requires forall c :: c in v ==> IsAscii(c)
    ensures Substituted(Plains(v) + more, resolved) == v + Substituted(more, resolved)
  {
    if v == [] {
      assert Plains(v) + more == more;
    } else {
      var c, rest := v[0], v[1..];
      assert c in v && forall d :: d in rest ==> d in v;
      SubstitutedPlains(rest, more, resolved);
      Assoc([Plain(c)], Plains(rest), more);
      TakeText([], Plain(c), Plains(rest) + more, resolved);
      Assoc([c], rest, Substituted(more, resolved));
      assert [c] + rest == v && [] + Latin1(c) == [c];
    }
  }

  /**
   * What a block is replaced by: the value of its trimmed URI, once, when it is a credential URI in the map, and its own
   * text otherwise; what stands before it stays, and what stands behind it is substituted on its own.
   */
  lemma BlockReplaced(before: string, inner: string, after: string, resolved: map<string, string>)
    requires '$' !in before && forall c :: c in before ==> IsAscii(c)
    requires Match(inner + "}" + after, 1, Code) == At(|inner|)
    ensures Result(before + ("${" + inner + "}" + after), resolved) ==
            if "cred://" <= Trim(inner) && Trim(inner) in resolved
            then before + (resolved[Trim(inner)] + Result(after, resolved))
            else before + ("${" + inner + "}" + Result(after, resolved))
  {
    var rest := "${" + inner + "}" + after;
    SegmentsOfPlain(before, rest);
    SegmentsOfBlock(inner, after);
    SubstitutedPlains(before, Segments(rest), resolved);
    TakeText("", Block(inner), Segments(after), resolved);
  }

  /** What a block adds to the extracted tokens: its trimmed URI if it is one of a credential, else nothing. */
  lemma BlockExtracted(before: string, inner: string, after: string)
    requires '$' !in before && Match(inner + "}" + after, 1, Code) == At(|inner|)
    ensures Tokens(Segments(before + ("${" + inner + "}" + after))) ==
            (if "cred://" <= Trim(inner) then [Trim(inner)] else []) + Tokens(Segments(after))
  {
    PlainsThrough(before, "${" + inner + "}" + after);
    SegmentsOfBlock(inner, after);
    TakeToken([], Block(inner), Segments(after));
  }

  /** A `$` that opens no block, because no `{` follows or nothing closes it, is an ordinary character. */
  lemma LoneDollar(before: string, rest: string, resolved: map<string, string>)
    requires '$' !in before && forall c :: c in before ==> IsAscii(c)
    requires rest == [] || rest[0] != '{' || Match(rest[1..], 1, Code) == Nowhere
    ensures Result(before + (['$'] + rest), resolved) == before + (['$'] + Result(rest, resolved))
    ensures Tokens(Segments(before + (['$'] + rest))) == Tokens(Segments(rest))
  {
    var s := ['$'] + rest;
    assert rest != [] ==> s[1] == rest[0] && s[2..] == rest[1..];
    SegmentsOfPlain(before, s);
    SegmentsCons('$', rest);
    SubstitutedPlains(before, Segments(s), resolved);
    NoTokensInPlains(before, Segments(s));
    TakeText("", Plain('$'), Segments(rest), resolved);
    TakeToken([], Plain('$'), Segments(rest));
  }

  /** Text without `$` holds no token and stays as it is, if it is ASCII. */
  lemma NoDollar(s: string, resolved: map<string, string>)
    requires '$' !in s
    ensures Tokens(Segments(s)) == []
    ensures (forall c :: c in s ==> IsAscii(c)) ==> Result(s, resolved) == s
  {
    assert s + [] == s;
    SegmentsOfPlain(s, []);
    NoTokensInPlains(s, []);
    if forall c :: c in s ==> IsAscii(c) { SubstitutedPlains(s, [], resolved); }
  }

  lemma DropTwo(a: char, b: char, t: string)
    ensures ([a] + ([b] + t))[2..] == t
  {
  }

  /** A `$` that opened no block opens none after the rest was substituted. */
  lemma DollarStaysPlain(s: string, rest: string, resolved: map<string, string>)
    requires Resolves(s, resolved) && Resolves(rest, resolved)
    requires s == "$" + rest && !BlockEnd(s).At?
    ensures !BlockEnd("$" + Result(rest, resolved)).At?
  {
    var out := Result(rest, resolved);
    if out != [] && out[0] == '{' {
      var x, rest' := Cut(rest);
      ResolvesRest(rest, x, rest', resolved);
      assert Rendered(x, resolved) != "" && out[0] == Rendered(x, resolved)[0];
      assert Token(x).Some? ==> '{' !in Rendered(x, resolved);
      assert x == Plain('{');
      var out' := Result(rest', resolved);
      assert out == ['{'] + out' && rest == ['{'] + rest';
      DropTwo('$', '{', out');
      DropTwo('$', '{', rest');
      assert "$" + out == ['$'] + (['{'] + out') && s == ['$'] + (['{'] + rest');
      MatchKept(rest', resolved, 1);
    }
  }

  /**
    When a text has no double quote and each of its tokens resolves to an inert value, the
    substituted text holds no credential token, whatever unmatched `${` and nested blocks
    stood around them.
  */
  lemma {:induction false} NoTokenLeft(s: string, resolved: map<string, string>)
    requires Resolves(s, resolved)
    ensures Tokens(Segments(Result(s, resolved))) == []
    decreases |s|
  {
    if s != [] {
      var x, rest := Cut(s);
      ResolvesRest(s, x, rest, resolved);
      NoTokenLeft(rest, resolved);
      var out := Result(rest, resolved);
      var v := Rendered(x, resolved);
      if x.Block? && !Token(x).Some? {
        BlockStays(x.inner, rest, out);
        SegmentsOfBlock(x.inner, out);
        assert ([x] + Segments(out))[1..] == Segments(out);
      } else if x == Plain('$') {
        DollarStaysPlain(s, rest, resolved);
        assert (v + out)[1..] == out;
        assert ([x] + Segments(out))[1..] == Segments(out);
      } else {
        assert x.Plain? && !IsAscii(x.c) ==> forall c :: c in v ==> !IsAscii(c);
        SegmentsOfPlain(v, out);
        NoTokensInPlains(v, Segments(out));
      }
    }
  }

  lemma BlockAlone(inner: string, t: string)
    requires NoBraces(inner)
    ensures Segments("${" + inner + "}" + t) == [Block(inner)] + Segments(t)
  {
    MatchPast(inner, "}" + t, 1);
    assert inner + "}" + t == inner + ("}" + t);
    SegmentsOfBlock(inner, t);
  }

  lemma DollarBlockEmptied(uri: string, tail: string)
    requires NoBraces(uri) && '$' !in tail && CRED_SCHEME <= Trim(uri) && forall c :: c in tail ==> IsAscii(c)
    ensures var s, resolved := "$" + ("${" + uri + "}" + tail), map[Trim(uri) := ""];
            Tokens(Segments(s)) == [Trim(uri)] && Result(s, resolved) == "$" + tail
  {
    var block, resolved := "${" + uri + "}" + tail, map[Trim(uri) := ""];
    MatchPast(uri, "}" + tail, 1);
    Assoc(uri, "}", tail);
    assert "" + (['$'] + block) == "$" + block && "" + block == block && "" + ("" + tail) == tail;
    assert block[0] == '$';
    LoneDollar("", block, resolved);
    BlockExtracted("", uri, tail);
    BlockReplaced("", uri, tail, resolved);
    NoDollar(tail, resolved);
    assert [Trim(uri)] + [] == [Trim(uri)];
  }

  lemma TokenAlone(uri: string)
    requires NoBraces(uri) && CRED_SCHEME <= Trim(uri)
    ensures Tokens(Segments("${" + uri + "}")) == [Trim(uri)]
  {
    BlockAlone(uri, "");
    assert "${" + uri + "}" + "" == "${" + uri + "}";
    TakeToken([], Block(uri), []);
  }

  /** An empty value is not inert: it can join a `$` to a `{` and make a token that no one wrote. */
  lemma EmptyValueMakesToken(uri: string, made: string)
    requires NoBraces(uri) && NoBraces(made) && '$' !in made && (forall c :: c in made ==> IsAscii(c))
    requires CRED_SCHEME <= Trim(uri) && CRED_SCHEME <= Trim(made)
    ensures var s, resolved := "$" + ("${" + uri + "}" + ("{" + made + "}")), map[Trim(uri) := ""];
            Tokens(Segments(s)) == [Trim(uri)] && Tokens(Segments(Result(s, resolved))) == [Trim(made)]
  {
    var tail := "{" + made + "}";
    DollarBlockEmptied(uri, tail);
    TokenAlone(made);
    assert "$" + tail == "${" + made + "}";
  }
}
