/**
  The `${cred://...}` scanner: the brace matcher, the extractor and the substituter. The
  source indexes bytes; every character it looks for is ASCII, so this model indexes
  characters, and the byte-wise copy of plain text is `Latin1`.
*/
module CredentialTokens {
  import opened Wrappers
  import opened Text

  const CRED_SCHEME: string := "cred://"

  // ---- Matching braces

  /** Outside a string literal, inside one, or inside one just after a backslash. */
  datatype Mode = Code | Quoted | Escaped

  function NextMode(m: Mode, c: char): Mode {
    match m
    case Code => if c == '"' then Quoted else Code
    case Quoted => if c == '\\' then Escaped else if c == '"' then Code else Quoted
    case Escaped => Quoted
  }

  function NextDepth(m: Mode, depth: nat, c: char): nat
    requires depth > 0
  {
    if m.Code? && c == '{' then depth + 1 else if m.Code? && c == '}' then depth - 1 else depth
  }

  datatype Position = Nowhere | At(index: nat)

  function AddTo(r: Position, n: nat): Position {
    if r.At? then At(r.index + n) else Nowhere
  }

  /** The position of the `}` that closes the last of `depth` open braces. */
  function Match(s: string, depth: nat, m: Mode): (end: Position)
    requires depth > 0
    ensures end.At? ==> end.index < |s| && s[end.index] == '}'
  {
    if s == [] then Nowhere
    else
      var d := NextDepth(m, depth, s[0]);
      if d == 0 then At(0) else AddTo(Match(s[1..], d, NextMode(m, s[0])), 1)
  }

  /** The same, by position in the whole text. */
  function MatchAt(s: string, i: nat, depth: nat, m: Mode): (end: Position)
    requires depth > 0
    ensures end.At? ==> i <= end.index < |s| && s[end.index] == '}'
    decreases |s| - i
  {
    if i >= |s| then Nowhere
    else
      var d := NextDepth(m, depth, s[i]);
      if d == 0 then At(i) else MatchAt(s, i + 1, d, NextMode(m, s[i]))
  }

  lemma {:induction false} MatchAtIsMatch(s: string, i: nat, depth: nat, m: Mode)
    requires depth > 0 && i <= |s|
    ensures MatchAt(s, i, depth, m) == AddTo(Match(s[i..], depth, m), i)
    decreases |s| - i
  {
    if i < |s| {
      var d := NextDepth(m, depth, s[i]);
      assert s[i..][1..] == s[i + 1..];
      if d > 0 { MatchAtIsMatch(s, i + 1, d, NextMode(m, s[i])); }
    }
  }

  method FindMatchingBrace(s: string, start: nat) returns (end: Position)
    requires start <= |s|
    ensures end == MatchAt(s, start, 1, Code)
  {
    var depth := 1;
    var inString, escaped := false, false;
    var i := start;
    while i < |s|
      invariant start <= i <= |s| && 1 <= depth <= 1 + (i - start) && (escaped ==> inString)
      invariant MatchAt(s, i, depth, if !inString then Code else if escaped then Escaped else Quoted) == MatchAt(s, start, 1, Code)
    {
      var b := s[i];
      if inString {
        if escaped {
          escaped := false;
        } else if b == '\\' {
          escaped := true;
        } else if b == '"' {
          inString := false;
        }
      } else {
        if b == '"' {
          inString := true;
        } else if b == '{' {
          depth := depth + 1;
        } else if b == '}' {
          depth := depth - 1;
          if depth == 0 {
            return At(i);
          }
        }
      }
      i := i + 1;
    }
    end := Nowhere;
  }

  function ModeAfter(s: string, m: Mode): Mode {
    if s == [] then m else NextMode(ModeAfter(s[..|s| - 1], m), s[|s| - 1])
  }

  /** Opening less closing braces outside string literals, on top of `depth`. */
  function Nesting(s: string, depth: int, m: Mode): int {
    if s == [] then depth
    else
      var front, last := s[..|s| - 1], s[|s| - 1];
      Nesting(front, depth, m)
      + if ModeAfter(front, m) != Code then 0 else if last == '{' then 1 else if last == '}' then -1 else 0
  }

  lemma {:induction false} NestingCons(c: char, s: string, depth: nat, m: Mode)
    requires depth > 0
    ensures ModeAfter([c] + s, m) == ModeAfter(s, NextMode(m, c))
    ensures Nesting([c] + s, depth, m) == Nesting(s, NextDepth(m, depth, c), NextMode(m, c))
  {
    if s == [] {
      assert [c] + s == [c] && [c][..0] == [];
    } else {
      assert ([c] + s)[..|s|] == [c] + s[..|s| - 1];
      NestingCons(c, s[..|s| - 1], depth, m);
    }
  }

  /** `end` is the first position after which the nesting is zero. */
  ghost predicate FirstZero(s: string, depth: nat, m: Mode, end: nat)
    requires end < |s|
  {
    Nesting(s[..end + 1], depth, m) == 0 && forall k :: 0 <= k <= end ==> Nesting(s[..k], depth, m) > 0
  }

  lemma NestingTail(s: string, depth: nat, m: Mode, k: nat)
    requires depth > 0 && k < |s|
    ensures Nesting(s[..k + 1], depth, m) == Nesting(s[1..][..k], NextDepth(m, depth, s[0]), NextMode(m, s[0]))
  {
    assert s[..k + 1] == [s[0]] + s[1..][..k];
    NestingCons(s[0], s[1..][..k], depth, m);
  }

  lemma FirstZeroTail(s: string, depth: nat, m: Mode, end: nat)
    requires depth > 0 && 0 < end < |s|
    ensures FirstZero(s, depth, m, end) <==> FirstZero(s[1..], NextDepth(m, depth, s[0]), NextMode(m, s[0]), end - 1)
  {
    var d, n := NextDepth(m, depth, s[0]), NextMode(m, s[0]);
    NestingTail(s, depth, m, end);
    if FirstZero(s, depth, m, end) {
      forall k | 0 <= k <= end - 1
        ensures Nesting(s[1..][..k], d, n) > 0
      {
        NestingTail(s, depth, m, k);
        assert Nesting(s[..k + 1], depth, m) > 0;
      }
    }
    if FirstZero(s[1..], d, n, end - 1) {
      forall k | 0 <= k <= end
        ensures Nesting(s[..k], depth, m) > 0
      {
        if k > 0 {
          NestingTail(s, depth, m, k - 1);
          assert Nesting(s[1..][..k - 1], d, n) > 0;
        }
      }
    }
  }

  /** The matcher stops at the first position where the nesting, counted from scratch, returns to zero. */
  lemma {:induction false} MatchIsFirstZero(s: string, depth: nat, m: Mode, end: nat)
    requires depth > 0 && end < |s|
    ensures Match(s, depth, m) == At(end) <==> FirstZero(s, depth, m, end)
  {
    var d := NextDepth(m, depth, s[0]);
    NestingTail(s, depth, m, 0);
    assert Nesting(s[..1], depth, m) == d;
    if end > 0 {
      FirstZeroTail(s, depth, m, end);
      if d > 0 {
        MatchIsFirstZero(s[1..], d, NextMode(m, s[0]), end - 1);
      }
    }
  }

  lemma {:induction false} NestingBounded(s: string, depth: int, m: Mode)
    ensures depth - |s| <= Nesting(s, depth, m) <= depth + |s|
  {
    if s != [] { NestingBounded(s[..|s| - 1], depth, m); }
  }

  /** The counter of the source has 32 bits: it does not overflow anywhere in a text shorter than 2^31 - 1. */
  lemma DepthFits(s: string, start: nat, end: nat)
    requires start <= end <= |s| < 0x7FFF_FFFF
    ensures -0x8000_0000 <= Nesting(s[start..end], 1, Code) <= 0x7FFF_FFFF
  {
    NestingBounded(s[start..end], 1, Code);
  }

  // ---- Segments

  datatype Segment = Plain(c: char) | Block(inner: string)

  predicate Opens(s: string) {
    |s| >= 2 && s[0] == '$' && s[1] == '{'
  }

  /** The length of the block content when a matched `${` starts the text. */
  function BlockEnd(s: string): (n: Position)
    ensures n.At? ==> n.index + 3 <= |s| && s[n.index + 2] == '}'
  {
    if Opens(s) then Match(s[2..], 1, Code) else Nowhere
  }

  function Segments(s: string): seq<Segment> {
    if s == [] then []
    else
      match BlockEnd(s)
      case At(n) => [Block(s[2..n + 2])] + Segments(s[n + 3..])
      case Nowhere => [Plain(s[0])] + Segments(s[1..])
  }

  function SegmentText(x: Segment): string {
    match x
    case Plain(c) => [c]
    case Block(inner) => "${" + inner + "}"
  }

  function AllText(segments: seq<Segment>): string {
    if segments == [] then [] else SegmentText(segments[0]) + AllText(segments[1..])
  }

  /** The credential URI of a `${cred://...}` block. */
  function Token(x: Segment): Option<string> {
    if x.Block? && CRED_SCHEME <= Trim(x.inner) then Some(Trim(x.inner)) else None
  }

  function TokenOf(x: Segment): seq<string> {
    if Token(x).Some? then [Token(x).value] else []
  }

  function Tokens(segments: seq<Segment>): seq<string> {
    if segments == [] then [] else TokenOf(segments[0]) + Tokens(segments[1..])
  }

  /** The UTF-8 bytes of a character, each read back as a character of its own. */
  function Latin1(c: char): (s: string)
    ensures IsAscii(c) ==> s == [c]
    ensures !IsAscii(c) ==> |s| >= 2 && forall i :: 0 <= i < |s| ==> !IsAscii(s[i])
  {
    var n := c as int;
    if n < 0x80 then [c]
    else if n < 0x800 then [(0xC0 + n / 64) as char, (0x80 + n % 64) as char]
    else if n < 0x1_0000 then [(0xE0 + n / 4096) as char, (0x80 + n / 64 % 64) as char, (0x80 + n % 64) as char]
    else
      [(0xF0 + n / 0x4_0000) as char, (0x80 + n / 4096 % 64) as char, (0x80 + n / 64 % 64) as char,
       (0x80 + n % 64) as char]
  }

  /** The character that UTF-8 bytes stand for. */
  function Utf8Value(b: string): int {
    match |b|
    case 1 => b[0] as int
    case 2 => (b[0] as int - 0xC0) * 0x40 + (b[1] as int - 0x80)
    case 3 => ((b[0] as int - 0xE0) * 0x40 + (b[1] as int - 0x80)) * 0x40 + (b[2] as int - 0x80)
    case 4 =>
      (((b[0] as int - 0xF0) * 0x40 + (b[1] as int - 0x80)) * 0x40 + (b[2] as int - 0x80)) * 0x40 + (b[3] as int - 0x80)
    case _ => -1
  }

  /** What is written for a character are its UTF-8 bytes: they read back as it, and each fits a byte. */
  lemma Latin1IsUtf8(c: char)
    ensures Utf8Value(Latin1(c)) == c as int
    ensures forall b :: b in Latin1(c) ==> (b as int) < 0x100
    ensures |Latin1(c)| > 1 ==> forall i :: 1 <= i < |Latin1(c)| ==> 0x80 <= Latin1(c)[i] as int < 0xC0
  {
    var n := c as int;
    Sextets(n);
    Sextets(n / 64);
    Sextets(n / 4096);
    assert n / 64 / 64 == n / 4096 && n / 4096 / 64 == n / 0x4_0000;
    if n >= 0x1_0000 {
      var b := Latin1(c);
      assert b[0] as int == 0xF0 + n / 0x4_0000 && b[1] as int == 0x80 + n / 4096 % 64;
      assert b[2] as int == 0x80 + n / 64 % 64 && b[3] as int == 0x80 + n % 64;
    }
  }

  lemma Sextets(n: int)
    ensures n == n / 64 * 64 + n % 64
  {
  }

  function Rendered(x: Segment, resolved: map<string, string>): string {
    if x.Plain? then Latin1(x.c)
    else if Token(x).Some? && Token(x).value in resolved then resolved[Token(x).value]
    else SegmentText(x)
  }

  function Substituted(segments: seq<Segment>, resolved: map<string, string>): string {
    if segments == [] then [] else Rendered(segments[0], resolved) + Substituted(segments[1..], resolved)
  }

  // ---- The two loops

  predicate OpensAt(s: string, i: nat) {
    i + 1 < |s| && s[i] == '$' && s[i + 1] == '{'
  }

  /** The segments from position `i` on. */
  function SegmentsAt(s: string, i: nat): seq<Segment>
    decreases |s| - i
  {
    if i >= |s| then []
    else if OpensAt(s, i) && MatchAt(s, i + 2, 1, Code).At? then
      var end := MatchAt(s, i + 2, 1, Code).index;
      [Block(s[i + 2..end])] + SegmentsAt(s, end + 1)
    else [Plain(s[i])] + SegmentsAt(s, i + 1)
  }

  lemma BlockFirst(s: string, i: nat, end: nat, next: nat)
    requires OpensAt(s, i) && MatchAt(s, i + 2, 1, Code) == At(end) && next == end + 1
    ensures SegmentsAt(s, i) == [Block(s[i + 2..end])] + SegmentsAt(s, next)
  {
  }

  lemma BlockEndAt(s: string, i: nat)
    requires i < |s|
    ensures BlockEnd(s[i..]).At? <==> OpensAt(s, i) && MatchAt(s, i + 2, 1, Code).At?
    ensures BlockEnd(s[i..]).At? ==> MatchAt(s, i + 2, 1, Code) == At(i + 2 + BlockEnd(s[i..]).index)
  {
    if OpensAt(s, i) {
      assert s[i..][2..] == s[i + 2..];
      MatchAtIsMatch(s, i + 2, 1, Code);
    }
  }

  lemma SegmentsStep(s: string, i: nat, end: nat, next: nat)
    requires i < |s| && i + 2 <= end && BlockEnd(s[i..]) == At(end - 2 - i) && next == end + 1
    ensures Segments(s[i..]) == [Block(s[i + 2..end])] + Segments(s[next..])
  {
    var n := end - 2 - i;
    var t := s[i..];
    TailSlices(s, i, end, next);
    assert Segments(t) == [Block(t[2..n + 2])] + Segments(t[n + 3..]);
  }

  lemma TailSlices(s: string, i: nat, end: nat, next: nat)
    requires i + 2 <= end < |s| && next == end + 1
    ensures s[i..][2..end - i] == s[i + 2..end] && s[i..][end + 1 - i..] == s[next..]
  {
  }

  lemma {:induction false} SegmentsAtIsSegments(s: string, i: nat)
    requires i <= |s|
    ensures SegmentsAt(s, i) == Segments(s[i..])
    decreases |s| - i
  {
    if i < |s| {
      BlockEndAt(s, i);
      if BlockEnd(s[i..]).At? {
        var end := i + 2 + BlockEnd(s[i..]).index;
        var next := end + 1;
        BlockFirst(s, i, end, next);
        SegmentsStep(s, i, end, next);
        SegmentsAtIsSegments(s, next);
      } else {
        var next := i + 1;
        assert s[i..][1..] == s[next..];
        SegmentsAtIsSegments(s, next);
      }
    }
  }

  lemma BlockText(s: string, i: nat, end: nat, next: nat)
    requires OpensAt(s, i) && i + 2 <= end < |s| && s[end] == '}' && next == end + 1
    ensures s[i..next] == SegmentText(Block(s[i + 2..end]))
  {
    var inner := s[i + 2..end];
    assert s[i..i + 2] == "${" && s[end..next] == "}";
    assert s[i..next] == s[i..i + 2] + inner + s[end..next];
  }

  lemma TakeToken(out: seq<string>, x: Segment, rest: seq<Segment>)
    ensures out + Tokens([x] + rest) == (out + TokenOf(x)) + Tokens(rest)
  {
    assert ([x] + rest)[1..] == rest;
  }

  lemma TakeText(out: string, x: Segment, rest: seq<Segment>, resolved: map<string, string>)
    ensures out + Substituted([x] + rest, resolved) == (out + Rendered(x, resolved)) + Substituted(rest, resolved)
  {
    assert ([x] + rest)[1..] == rest;
  }

  // The loops: what has been produced, and what is left to scan, make up the whole result.

  ghost predicate TokensSoFar(s: string, i: nat, out: seq<string>) {
    out + Tokens(SegmentsAt(s, i)) == Tokens(SegmentsAt(s, 0))
  }

  ghost predicate TextSoFar(s: string, i: nat, out: string, resolved: map<string, string>) {
    out + Substituted(SegmentsAt(s, i), resolved) == Substituted(SegmentsAt(s, 0), resolved)
  }

  lemma TokensPastPlain(s: string, i: nat, next: nat, out: seq<string>)
    requires i < |s| && next == i + 1 && !(OpensAt(s, i) && MatchAt(s, i + 2, 1, Code).At?) && TokensSoFar(s, i, out)
    ensures TokensSoFar(s, next, out)
  {
    TakeToken(out, Plain(s[i]), SegmentsAt(s, next));
    assert out + TokenOf(Plain(s[i])) == out;
  }

  lemma TextPastPlain(s: string, i: nat, next: nat, out: string, resolved: map<string, string>)
    requires i < |s| && next == i + 1 && !(OpensAt(s, i) && MatchAt(s, i + 2, 1, Code).At?) && TextSoFar(s, i, out, resolved)
    ensures TextSoFar(s, next, out + Latin1(s[i]), resolved)
  {
    TakeText(out, Plain(s[i]), SegmentsAt(s, next), resolved);
  }

  lemma LoopsStart(s: string, resolved: map<string, string>)
    ensures TokensSoFar(s, 0, []) && TextSoFar(s, 0, "", resolved)
  {
  }

  lemma LoopsEnd(s: string, i: nat, tokens: seq<string>, text: string, resolved: map<string, string>)
    requires i >= |s|
    ensures TokensSoFar(s, i, tokens) ==> tokens == Tokens(Segments(s))
    ensures TextSoFar(s, i, text, resolved) ==> text == Substituted(Segments(s), resolved)
  {
    SegmentsAtIsSegments(s, 0);
    assert s[0..] == s;
    assert SegmentsAt(s, i) == [];
  }

  /** What the extractor collects from the block that closes at `end`. */
  method PushToken(out: seq<string>, s: string, i: nat, end: nat, next: nat) returns (longer: seq<string>)
    requires OpensAt(s, i) && MatchAt(s, i + 2, 1, Code) == At(end) && next == end + 1 && TokensSoFar(s, i, out)
    ensures TokensSoFar(s, next, longer)
  {
    ghost var x := Block(s[i + 2..end]);
    BlockFirst(s, i, end, next);
    TakeToken(out, x, SegmentsAt(s, next));
    longer := out;
    var inner := Trim(s[i + 2..end]);
    if CRED_SCHEME <= inner {
      longer := longer + [inner];
    }
    assert longer == out + TokenOf(x);
  }

  method CredTokens(s: string) returns (out: seq<string>)
    ensures out == Tokens(Segments(s))
  {
    out := [];
    LoopsStart(s, map[]);
    var i := 0;
    while i + 1 < |s|
      invariant i <= |s| && TokensSoFar(s, i, out)
    {
      if s[i] == '$' && s[i + 1] == '{' {
        var end := FindMatchingBrace(s, i + 2);
        if end.At? {
          var next := end.index + 1;
          out := PushToken(out, s, i, end.index, next);
          i := next;
          continue;
        }
      }
      var next := i + 1;
      TokensPastPlain(s, i, next, out);
      i := next;
    }
    if i < |s| {
      TokensPastPlain(s, i, |s|, out);
    }
    LoopsEnd(s, |s|, out, "", map[]);
  }

  /** What the substituter writes for the block that closes at `end`. */
  method PushText(out: string, s: string, i: nat, end: nat, next: nat, resolved: map<string, string>)
    returns (longer: string)
    requires OpensAt(s, i) && MatchAt(s, i + 2, 1, Code) == At(end) && next == end + 1 && TextSoFar(s, i, out, resolved)
    ensures TextSoFar(s, next, longer, resolved)
  {
    ghost var x := Block(s[i + 2..end]);
    BlockFirst(s, i, end, next);
    TakeText(out, x, SegmentsAt(s, next), resolved);
    BlockText(s, i, end, next);
    var inner := Trim(s[i + 2..end]);
    var text := s[i..next];
    if CRED_SCHEME <= inner {
      if inner in resolved {
        text := resolved[inner];
      }
    }
    assert text == Rendered(x, resolved);
    longer := out + text;
  }

  method SubstituteCredTokens(s: string, resolved: map<string, string>) returns (out: string)
    ensures out == Substituted(Segments(s), resolved)
  {
    out := "";
    LoopsStart(s, resolved);
    var i := 0;
    while i < |s|
      invariant i <= |s| && TextSoFar(s, i, out, resolved)
    {
      if i + 1 < |s| && s[i] == '$' && s[i + 1] == '{' {
        var end := FindMatchingBrace(s, i + 2);
        if end.At? {
          var next := end.index + 1;
          out := PushText(out, s, i, end.index, next, resolved);
          i := next;
          continue;
        }
      }
      var next := i + 1;
      TextPastPlain(s, i, next, out, resolved);
      out := out + Latin1(s[i]);
      i := next;
    }
    LoopsEnd(s, i, [], out, resolved);
  }
}
