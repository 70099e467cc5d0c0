/** Withholding the userinfo and the query values of a URL. */
module RedactUrl {
  import opened Wrappers
  import opened Text

  const REDACTED: string := "[redacted]"

  // ---- Splitting

  /** Everything up to and including the first `://`, and everything behind it. */
  function SplitScheme(s: string): (r: Option<(string, string)>)
    ensures r.Some? ==> s == r.value.0 + r.value.1 && |r.value.0| >= 3 && r.value.0[|r.value.0| - 1] == '/'
  {
    if |s| < 3 then None
    else if s[..3] == "://" then Some((s[..3], s[3..]))
    else
      match SplitScheme(s[1..])
      case None => None
      case Some(p) =>
        assert s == [s[0]] + s[1..];
        Some(([s[0]] + p.0, p.1))
  }

  predicate EndsAuthority(c: char) {
    c == '/' || c == '?' || c == '#'
  }

  /** The part before the first of `/`, `?` and `#`. */
  function Authority(s: string): (a: string)
    ensures |a| <= |s| && a == s[..|a|]
    ensures forall c :: c in a ==> !EndsAuthority(c)
    ensures |a| < |s| ==> EndsAuthority(s[|a|])
  {
    if s == [] || EndsAuthority(s[0]) then [] else [s[0]] + Authority(s[1..])
  }

  function AfterAuthority(s: string): (tail: string)
    ensures s == Authority(s) + tail
  {
    s[|Authority(s)|..]
  }

  /** What follows the last `c`, or everything. */
  function AfterLast(s: string, c: char): (r: string)
    ensures c !in r
    ensures c !in s ==> r == s
    ensures |r| <= |s| && r == s[|s| - |r|..]
    ensures c in s ==> |r| < |s|
    decreases |s|
  {
    match SplitOnce(s, c)
    case None => s
    case Some(p) => AfterLast(p.1, c)
  }

  function RedactPassword(url: string): string {
    match SplitScheme(url)
    case None => url
    case Some((head, rest)) => head + (AfterLast(Authority(rest), '@') + AfterAuthority(rest))
  }

  predicate HasUserinfo(url: string) {
    match SplitScheme(url)
    case None => false
    case Some((_, rest)) => '@' in Authority(rest)
  }

  // ---- Query values

  function MaskPair(pair: string): string {
    match SplitOnce(pair, '=')
    case Some((name, _)) => name + (['='] + REDACTED)
    case None => pair
  }

  function MaskPairs(pairs: seq<string>): (r: seq<string>)
    ensures |r| == |pairs| && forall i :: 0 <= i < |r| ==> r[i] == MaskPair(pairs[i])
  {
    seq(|pairs|, i requires 0 <= i < |pairs| => MaskPair(pairs[i]))
  }

  function MaskQuery(query: string): string {
    Join(MaskPairs(Split(query, '&')), '&')
  }

  function MaskBeforeFragment(s: string): string {
    match SplitOnce(s, '?')
    case Some((base, query)) => base + (['?'] + MaskQuery(query))
    case None => s
  }

  function MaskUrl(url: string): string {
    match SplitOnce(url, '#')
    case Some((before, fragment)) => MaskBeforeFragment(before) + (['#'] + fragment)
    case None => MaskBeforeFragment(url)
  }

  function RedactForDisplay(url: string): string {
    MaskUrl(RedactPassword(url))
  }

  // ---- Splitting what was put together

  lemma {:induction false} SchemeFinds(s: string, t: string)
    requires SplitScheme(s).Some?
    ensures SplitScheme(SplitScheme(s).value.0 + t) == Some((SplitScheme(s).value.0, t))
  {
    var head := SplitScheme(s).value.0;
    var u := head + t;
    if s[..3] == "://" {
      assert u[..3] == head && u[3..] == t;
    } else {
      SchemeFinds(s[1..], t);
      var rest := SplitScheme(s[1..]).value.0;
      assert u[1..] == rest + t && u[0] == s[0];
      assert s[..3] == [s[0]] + s[1..][..2] && u[..3] == [s[0]] + u[1..][..2];
      assert s[1..] == rest + SplitScheme(s[1..]).value.1;
      assert s[1..][..2] == rest[..2] == u[1..][..2];
    }
  }

  lemma {:induction false} AuthorityFinds(a: string, tail: string)
    requires forall c :: c in a ==> !EndsAuthority(c)
    requires tail == [] || EndsAuthority(tail[0])
    ensures Authority(a + tail) == a && AfterAuthority(a + tail) == tail
  {
    if a == [] {
      assert a + tail == tail;
    } else {
      var s := a + tail;
      assert s[0] == a[0] && s[1..] == a[1..] + tail;
      assert a[0] in a;
      AuthorityFinds(a[1..], tail);
      assert a == [a[0]] + a[1..];
    }
  }

  lemma {:induction false} AfterLastFinds(a: string, c: char, b: string)
    requires c !in b
    ensures AfterLast(a + ([c] + b), c) == b
    decreases |a|
  {
    if c !in a {
      SplitOnceFinds(a, c, b);
    } else {
      var p := SplitOnce(a, c).value;
      var rest := p.1 + ([c] + b);
      assert a + ([c] + b) == p.0 + ([c] + rest);
      SplitOnceFinds(p.0, c, rest);
      AfterLastFinds(p.1, c, b);
    }
  }

  /** The pieces of a URL around its authority: `head` ends in the first `://`. */
  lemma PasswordOf(head: string, s: string, authority: string, tail: string)
    requires SplitScheme(s).Some? && SplitScheme(s).value.0 == head
    requires forall c :: c in authority ==> !EndsAuthority(c)
    requires tail == [] || EndsAuthority(tail[0])
    ensures RedactPassword(head + (authority + tail)) == head + (AfterLast(authority, '@') + tail)
    ensures HasUserinfo(head + (authority + tail)) <==> '@' in authority
  {
    SchemeFinds(s, authority + tail);
    AuthorityFinds(authority, tail);
  }

  // ---- Userinfo

  /** Redacting leaves no userinfo, and again changes nothing. */
  lemma PasswordIdempotent(url: string)
    ensures !HasUserinfo(RedactPassword(url))
    ensures RedactPassword(RedactPassword(url)) == RedactPassword(url)
  {
    if SplitScheme(url).Some? {
      var (head, rest) := SplitScheme(url).value;
      PasswordOf(head, url, AfterLast(Authority(rest), '@'), AfterAuthority(rest));
    }
  }

  function Ats(s: string): nat {
    multiset(s)['@']
  }

  lemma SuffixAts(s: string, n: nat)
    requires n <= |s|
    ensures Ats(s[n..]) <= Ats(s)
    ensures '@' in s[..n] ==> Ats(s[n..]) < Ats(s)
  {
    assert s == s[..n] + s[n..];
  }

  lemma AfterLastAts(s: string)
    ensures Ats(AfterLast(s, '@')) <= Ats(s)
    ensures '@' in s ==> Ats(AfterLast(s, '@')) < Ats(s)
  {
    var r := AfterLast(s, '@');
    var n := |s| - |r|;
    assert s == s[..n] + s[n..];
    SuffixAts(s, n);
  }

  /** A URL is changed exactly when its first authority has a userinfo; it then has fewer `@`. */
  lemma PasswordChangesIff(url: string)
    ensures Ats(RedactPassword(url)) <= Ats(url)
    ensures HasUserinfo(url) ==> Ats(RedactPassword(url)) < Ats(url)
    ensures RedactPassword(url) != url <==> HasUserinfo(url)
  {
    if SplitScheme(url).Some? {
      var (head, rest) := SplitScheme(url).value;
      AfterLastAts(Authority(rest));
      assert url == head + (Authority(rest) + AfterAuthority(rest));
    }
  }

  lemma PasswordKeepsOnlyOwn(url: string)
    ensures forall c :: c in RedactPassword(url) ==> c in url
  {
    if SplitScheme(url).Some? {
      var (head, rest) := SplitScheme(url).value;
      assert url == head + (Authority(rest) + AfterAuthority(rest));
    }
  }

  // ---- Masking again

  lemma RedactedIsPlain(c: char)
    requires c !in "[redact]"
    ensures c !in REDACTED
    ensures multiset(REDACTED)[c] == 0
  {
    var hidden := REDACTED;
    assert forall i :: 0 <= i < |hidden| ==> hidden[i] != c;
    assert c !in hidden;
  }

  lemma MaskPairTwice(pair: string)
    ensures MaskPair(MaskPair(pair)) == MaskPair(pair)
  {
    if SplitOnce(pair, '=').Some? {
      SplitOnceFinds(SplitOnce(pair, '=').value.0, '=', REDACTED);
    }
  }

  lemma MaskPairAts(pair: string)
    ensures Ats(MaskPair(pair)) <= Ats(pair)
  {
    if SplitOnce(pair, '=').Some? {
      RedactedIsPlain('@');
      var hidden := REDACTED;
      var (name, value) := SplitOnce(pair, '=').value;
      assert Ats(pair) == Ats(name) + Ats(['=']) + Ats(value);
      assert Ats(MaskPair(pair)) == Ats(name) + Ats(['=']) + Ats(hidden);
    }
  }

  lemma MaskPairFree(pair: string, c: char)
    requires c !in pair && (c == '&' || c == '#')
    ensures c !in MaskPair(pair)
  {
    RedactedIsPlain(c);
    if SplitOnce(pair, '=').Some? {
      var hidden := REDACTED;
      var (name, value) := SplitOnce(pair, '=').value;
      assert c !in name;
      assert pair == name + (['='] + value);
      assert pair[|name|] == '=' && pair[|name|] in pair;
      assert c !in name + (['='] + hidden);
    }
  }

  lemma {:induction false} JoinAts(parts: seq<string>, masked: seq<string>)
    requires |parts| == |masked| > 0 && forall i :: 0 <= i < |parts| ==> Ats(masked[i]) <= Ats(parts[i])
    ensures Ats(Join(masked, '&')) <= Ats(Join(parts, '&'))
  {
    if |parts| > 1 { JoinAts(parts[1..], masked[1..]); }
  }

  lemma {:induction false} JoinMembers(parts: seq<string>, c: char, x: char)
    requires parts != []
    ensures x in Join(parts, c) ==> x == c || exists i :: 0 <= i < |parts| && x in parts[i]
  {
    if |parts| > 1 && x in Join(parts, c) {
      JoinMembers(parts[1..], c, x);
      if x != c && x !in parts[0] {
        var i :| 0 <= i < |parts[1..]| && x in parts[1..][i];
        assert x in parts[i + 1];
      }
    }
  }

  lemma {:induction false} PartMembers(parts: seq<string>, c: char, i: nat, x: char)
    requires i < |parts| && x in parts[i]
    ensures x in Join(parts, c)
  {
    if i > 0 { PartMembers(parts[1..], c, i - 1, x); }
  }

  lemma MaskedPairsJoined(parts: seq<string>)
    requires parts != [] && forall p :: p in parts ==> '&' !in p
    ensures Split(Join(MaskPairs(parts), '&'), '&') == MaskPairs(parts)
  {
    var masked := MaskPairs(parts);
    forall i | 0 <= i < |parts|
      ensures '&' !in masked[i]
    {
      assert parts[i] in parts;
      MaskPairFree(parts[i], '&');
    }
    SplitJoin(masked, '&');
  }

  lemma MaskPairsTwice(parts: seq<string>)
    ensures MaskPairs(MaskPairs(parts)) == MaskPairs(parts)
  {
    var masked := MaskPairs(parts);
    var again := MaskPairs(masked);
    forall i | 0 <= i < |parts|
      ensures again[i] == masked[i]
    {
      MaskPairTwice(parts[i]);
    }
  }

  lemma MaskQueryTwice(query: string)
    ensures MaskQuery(MaskQuery(query)) == MaskQuery(query)
  {
    SplitFree(query, '&');
    MaskedPairsJoined(Split(query, '&'));
    MaskPairsTwice(Split(query, '&'));
  }

  lemma MaskQueryAts(query: string)
    ensures Ats(MaskQuery(query)) <= Ats(query)
  {
    var parts := Split(query, '&');
    JoinSplit(query, '&');
    forall i | 0 <= i < |parts|
      ensures Ats(MaskPairs(parts)[i]) <= Ats(parts[i])
    {
      MaskPairAts(parts[i]);
    }
    JoinAts(parts, MaskPairs(parts));
  }

  lemma MaskQueryFree(query: string)
    requires '#' !in query
    ensures '#' !in MaskQuery(query)
  {
    var parts := Split(query, '&');
    var masked := MaskPairs(parts);
    JoinSplit(query, '&');
    forall i | 0 <= i < |parts|
      ensures '#' !in masked[i]
    {
      if '#' in parts[i] { PartMembers(parts, '&', i, '#'); }
      MaskPairFree(parts[i], '#');
    }
    JoinMembers(masked, '&', '#');
  }

  lemma MaskBeforeFragmentTwice(s: string)
    ensures MaskBeforeFragment(MaskBeforeFragment(s)) == MaskBeforeFragment(s)
    ensures Ats(MaskBeforeFragment(s)) <= Ats(s)
    ensures '#' !in s ==> '#' !in MaskBeforeFragment(s)
  {
    if SplitOnce(s, '?').Some? {
      var (base, query) := SplitOnce(s, '?').value;
      MaskQueryTwice(query);
      MaskQueryAts(query);
      if '#' !in s { MaskQueryFree(query); }
      SplitOnceFinds(base, '?', MaskQuery(query));
    }
  }

  lemma MaskTwice(url: string)
    ensures MaskUrl(MaskUrl(url)) == MaskUrl(url)
    ensures Ats(MaskUrl(url)) <= Ats(url)
  {
    if SplitOnce(url, '#').Some? {
      var (before, fragment) := SplitOnce(url, '#').value;
      MaskBeforeFragmentTwice(before);
      SplitOnceFinds(MaskBeforeFragment(before), '#', fragment);
    } else {
      MaskBeforeFragmentTwice(url);
    }
  }

  /** A second pass finds something to do exactly when masking left a userinfo behind. */
  lemma DisplayTwiceGuard(url: string)
    ensures RedactForDisplay(RedactForDisplay(url)) == RedactForDisplay(url) <==> !HasUserinfo(RedactForDisplay(url))
  {
    var shown := RedactForDisplay(url);
    MaskTwice(RedactPassword(url));
    PasswordChangesIff(shown);
    MaskTwice(RedactPassword(shown));
  }
}
