/** What the redacted URL still depends on. */
module RedactUrlLaws {
  import opened Wrappers
  import opened Text
  import opened RedactUrl

  // ---- Userinfo by positions

  predicate SchemeAt(s: string, i: nat) {
    i + 3 <= |s| && s[i] == ':' && s[i + 1] == '/' && s[i + 2] == '/'
  }

  ghost predicate FirstScheme(s: string, i: nat) {
    SchemeAt(s, i) && forall k: nat :: k < i ==> !SchemeAt(s, k)
  }

  /** The first `://` is followed by an `@` before the next `/`, `?` or `#`. */
  ghost predicate AtBehindScheme(s: string) {
    exists i: nat :: FirstScheme(s, i) && AtBeforeEnd(s, i + 3)
  }

  ghost predicate AtBeforeEnd(s: string, from: nat) {
    exists j: nat :: AtInAuthority(s, from, j)
  }

  ghost predicate AtInAuthority(s: string, from: nat, j: nat) {
    from <= j < |s| && s[j] == '@' && forall k :: from <= k < j ==> !EndsAuthority(s[k])
  }

  lemma SchemeAtStart(s: string)
    requires |s| >= 3
    ensures SchemeAt(s, 0) <==> s[..3] == "://"
  {
    var t := s[..3];
    assert t[0] == s[0] && t[1] == s[1] && t[2] == s[2];
    assert SchemeAt(s, 0) ==> t == [':', '/', '/'];
  }

  lemma {:induction false} SchemePosition(s: string)
    ensures match SplitScheme(s)
            case Some((head, _)) => FirstScheme(s, |head| - 3)
            case None => forall k: nat :: !SchemeAt(s, k)
  {
    if |s| >= 3 {
      SchemeAtStart(s);
      if s[..3] != "://" {
        SchemePosition(s[1..]);
        assert forall k: nat :: k > 0 ==> SchemeAt(s, k) == SchemeAt(s[1..], k - 1);
      }
    }
  }

  lemma {:induction false} AuthorityPosition(s: string)
    ensures '@' in Authority(s) <==> AtBeforeEnd(s, 0)
  {
    var a := Authority(s);
    if '@' in a {
      var j :| 0 <= j < |a| && a[j] == '@';
      assert forall k :: 0 <= k < |a| ==> a[k] == s[k] && a[k] in a;
      assert AtInAuthority(s, 0, j);
    }
    if j: nat :| AtInAuthority(s, 0, j) {
      assert j < |a| ==> a[j] == s[j];
    }
  }

  lemma AtBehind(head: string, rest: string)
    ensures AtBeforeEnd(head + rest, |head|) <==> AtBeforeEnd(rest, 0)
  {
    var s, from := head + rest, |head|;
    assert forall k :: 0 <= k < |rest| ==> s[from + k] == rest[k];
    if j: nat :| AtInAuthority(rest, 0, j) { assert AtInAuthority(s, from, from + j); }
    if j: nat :| AtInAuthority(s, from, j) { assert AtInAuthority(rest, 0, j - from); }
  }

  lemma FirstSchemeUnique(s: string, i: nat)
    requires FirstScheme(s, i)
    ensures AtBehindScheme(s) <==> AtBeforeEnd(s, i + 3)
  {
    assert forall k: nat :: FirstScheme(s, k) ==> k == i;
  }

  /** What the second pass looks for, said by positions. */
  lemma UserinfoPosition(s: string)
    ensures HasUserinfo(s) <==> AtBehindScheme(s)
  {
    SchemePosition(s);
    if SplitScheme(s).Some? {
      var (head, rest) := SplitScheme(s).value;
      AuthorityPosition(rest);
      AtBehind(head, rest);
      FirstSchemeUnique(s, |head| - 3);
    }
  }

  /** Of a userinfo, all from behind the first `://` to the last `@` of the authority goes, and nothing else. */
  lemma PasswordWritten(s: string, from: nat, next: nat, end: nat)
    requires from >= 3 && FirstScheme(s, from - 3) && from < next <= end <= |s| && s[next - 1] == '@'
    requires forall k :: from <= k < end ==> s[k] != '/' && s[k] != '?' && s[k] != '#'
    requires end == |s| || s[end] == '/' || s[end] == '?' || s[end] == '#'
    requires '@' !in s[next..end]
    ensures RedactPassword(s) == s[..from] + s[next..]
  {
    var head := FirstSchemeIs(s, from - 3, from);
    assert forall k :: from <= k < end ==> !EndsAuthority(s[k]);
    var info, host, tail := CutAt(s, from, next - 1, next, end);
    PasswordPieces(s, head, info, host, tail);
  }

  lemma PasswordPieces(s: string, head: string, info: string, host: string, tail: string)
    requires SplitScheme(s).Some? && SplitScheme(s).value.0 == head
    requires (forall c :: c in info ==> !EndsAuthority(c)) && (forall c :: c in host ==> !EndsAuthority(c))
    requires '@' !in host && (tail == [] || EndsAuthority(tail[0]))
    requires s == head + ((info + (['@'] + host)) + tail)
    ensures RedactPassword(s) == head + (host + tail)
  {
    AfterLastFinds(info, '@', host);
    PasswordOf(head, s, info + (['@'] + host), tail);
  }

  /** A text around its authority, and the authority around one of its `@`. */
  lemma CutAt(s: string, from: nat, at: nat, next: nat, end: nat) returns (info: string, host: string, tail: string)
    requires from <= at < end <= |s| && s[at] == '@' && next == at + 1
    requires forall k :: from <= k < end ==> !EndsAuthority(s[k])
    requires end == |s| || EndsAuthority(s[end])
    ensures host == s[next..end] && s[next..] == host + tail
    ensures s == s[..from] + ((info + (['@'] + host)) + tail)
    ensures (forall c :: c in info ==> !EndsAuthority(c)) && (forall c :: c in host ==> !EndsAuthority(c))
    ensures tail == [] || EndsAuthority(tail[0])
  {
    info, host, tail := s[from..at], s[next..end], s[end..];
    assert s[from..end] == info + (['@'] + host);
    assert s == s[..from] + (s[from..end] + tail);
  }

  lemma FirstSchemeIs(s: string, i: nat, from: nat) returns (head: string)
    requires FirstScheme(s, i) && from == i + 3
    ensures head == s[..from] && SplitScheme(s).Some? && SplitScheme(s).value.0 == head
  {
    SchemePosition(s);
    head := SplitScheme(s).value.0;
    assert |head| == from && s[..|head|] == head;
  }

  // ---- URLs in parts

  datatype Param = Param(name: string, value: Option<string>)

  /** A URL in parts; an empty parameter list means there is no `?`. */
  datatype Url = Url(
    scheme: string, userinfo: Option<string>, host: string, path: string, params: seq<Param>, fragment: Option<string>)

  predicate Without(s: string, stops: string) {
    forall c :: c in s ==> c !in stops
  }

  predicate LegalParam(p: Param) {
    Without(p.name, "=&#") && (p.value.Some? ==> Without(p.value.value, "&#"))
  }

  /** Every delimiter is used as a delimiter only; a value may hold `=`, a fragment anything. */
  predicate Legal(u: Url) {
    && Without(u.scheme, ":?#")
    && (u.userinfo.Some? ==> Without(u.userinfo.value, "/?#"))
    && Without(u.host, "/?#@")
    && Without(u.path, "?#") && (u.path != [] ==> u.path[0] == '/')
    && forall p :: p in u.params ==> LegalParam(p)
  }

  function RenderParam(p: Param): string {
    match p.value
    case None => p.name
    case Some(v) => p.name + (['='] + v)
  }

  function RenderParams(params: seq<Param>): (r: seq<string>)
    ensures |r| == |params| && forall i :: 0 <= i < |r| ==> r[i] == RenderParam(params[i])
  {
    seq(|params|, i requires 0 <= i < |params| => RenderParam(params[i]))
  }

  function RenderQuery(params: seq<Param>): string {
    if params == [] then [] else ['?'] + Join(RenderParams(params), '&')
  }

  function RenderFragment(fragment: Option<string>): string {
    match fragment
    case None => []
    case Some(f) => ['#'] + f
  }

  function RenderAuthority(u: Url): string {
    match u.userinfo
    case None => u.host
    case Some(i) => i + (['@'] + u.host)
  }

  /** What follows the authority. */
  function RenderRest(u: Url): string {
    (u.path + RenderQuery(u.params)) + RenderFragment(u.fragment)
  }

  function Render(u: Url): string {
    (u.scheme + "://") + (RenderAuthority(u) + RenderRest(u))
  }

  // ---- Redacting by parts

  function HideValue(p: Param): Param {
    p.(value := if p.value.Some? then Some(REDACTED) else None)
  }

  function HideValues(params: seq<Param>): (r: seq<Param>)
    ensures |r| == |params| && forall i :: 0 <= i < |r| ==> r[i] == HideValue(params[i])
  {
    seq(|params|, i requires 0 <= i < |params| => HideValue(params[i]))
  }

  function Hide(u: Url): Url {
    u.(userinfo := None, params := HideValues(u.params))
  }

  lemma {:induction false} SchemeIs(scheme: string, t: string)
    requires ':' !in scheme
    ensures SplitScheme((scheme + "://") + t) == Some((scheme + "://", t))
  {
    var s := (scheme + "://") + t;
    if scheme == [] {
      assert s[..3] == "://" && s[3..] == t;
      assert scheme + "://" == "://";
    } else {
      assert s[0] == scheme[0] && scheme[0] in scheme;
      assert s[..3][0] == s[0];
      assert s[1..] == (scheme[1..] + "://") + t;
      SchemeIs(scheme[1..], t);
      assert [s[0]] + (scheme[1..] + "://") == scheme + "://";
    }
  }

  /** The password redactor removes the userinfo and nothing else. */
  lemma PasswordOfUrl(u: Url)
    requires Legal(u)
    ensures RedactPassword(Render(u)) == Render(u.(userinfo := None))
  {
    SchemeIs(u.scheme, "");
    var head, rest := u.scheme + "://", RenderRest(u);
    assert head + "" == head;
    assert RenderAuthority(u.(userinfo := None)) == u.host;
    AuthorityLegal(u);
    assert rest == [] || EndsAuthority(rest[0]) by { RestStarts(u); }
    PasswordOf(head, head, RenderAuthority(u), rest);
    if u.userinfo.Some? { AfterLastFinds(u.userinfo.value, '@', u.host); }
  }

  lemma AuthorityLegal(u: Url)
    requires Legal(u)
    ensures Without(RenderAuthority(u), "/?#")
  {
  }

  lemma RestStarts(u: Url)
    requires Legal(u)
    ensures RenderRest(u) == [] || EndsAuthority(RenderRest(u)[0])
  {
    var query := RenderQuery(u.params);
    if u.path == [] {
      assert u.path + query == query;
      if u.params == [] { assert query + RenderFragment(u.fragment) == RenderFragment(u.fragment); }
    }
  }

  lemma MaskParam(p: Param)
    requires LegalParam(p)
    ensures MaskPair(RenderParam(p)) == RenderParam(HideValue(p))
    ensures Without(RenderParam(p), "&#")
  {
    if p.value.Some? { SplitOnceFinds(p.name, '=', p.value.value); }
  }

  lemma MaskParams(params: seq<Param>)
    requires params != [] && forall p :: p in params ==> LegalParam(p)
    ensures MaskQuery(Join(RenderParams(params), '&')) == Join(RenderParams(HideValues(params)), '&')
    ensures '#' !in Join(RenderParams(params), '&')
  {
    var rendered := RenderParams(params);
    forall i | 0 <= i < |params|
      ensures MaskPair(rendered[i]) == RenderParam(HideValue(params[i])) && Without(rendered[i], "&#")
    {
      MaskParam(params[i]);
    }
    SplitJoin(rendered, '&');
    assert MaskPairs(rendered) == RenderParams(HideValues(params));
    JoinMembers(rendered, '&', '#');
  }

  /** Masking hides exactly the query values, whatever stands before the query. */
  lemma MaskOfParts(base: string, params: seq<Param>, fragment: Option<string>)
    requires Without(base, "?#") && forall p :: p in params ==> LegalParam(p)
    ensures MaskUrl((base + RenderQuery(params)) + RenderFragment(fragment)) ==
            (base + RenderQuery(HideValues(params))) + RenderFragment(fragment)
  {
    var hidden, before := HideValues(params), base + RenderQuery(params);
    if params == [] {
      assert hidden == [];
      assert before == base;
    } else {
      MaskParams(params);
      SplitOnceFinds(base, '?', Join(RenderParams(params), '&'));
    }
    assert MaskBeforeFragment(before) == base + RenderQuery(hidden);
    assert '#' !in before;
    if fragment.Some? {
      SplitOnceFinds(before, '#', fragment.value);
    } else {
      assert before + RenderFragment(fragment) == before;
      assert (base + RenderQuery(hidden)) + RenderFragment(fragment) == base + RenderQuery(hidden);
    }
  }

  /** Every text is made of such parts, so the law above speaks of all of them. */
  lemma PartsOf(s: string) returns (base: string, params: seq<Param>, fragment: Option<string>)
    ensures Without(base, "?#") && forall p :: p in params ==> LegalParam(p)
    ensures s == (base + RenderQuery(params)) + RenderFragment(fragment)
  {
    var before := Before(s, '#');
    fragment := if SplitOnce(s, '#').Some? then Some(SplitOnce(s, '#').value.1) else None;
    assert s == before + RenderFragment(fragment);
    base := Before(before, '?');
    if SplitOnce(before, '?').Some? {
      var query := SplitOnce(before, '?').value.1;
      params := ParamsOf(Split(query, '&'));
      SplitFree(query, '&');
      JoinSplit(query, '&');
      HashFree(query, before);
      QueryParams(Split(query, '&'), query);
    } else {
      params := [];
    }
    assert forall c :: c in base ==> c in before;
  }

  lemma HashFree(query: string, before: string)
    requires '#' !in before && SplitOnce(before, '?').Some? && query == SplitOnce(before, '?').value.1
    ensures '#' !in query
  {
    assert forall c :: c in query ==> c in before;
  }

  function ParamOf(pair: string): (p: Param)
    ensures RenderParam(p) == pair && '=' !in p.name
  {
    match SplitOnce(pair, '=')
    case Some((name, value)) => Param(name, Some(value))
    case None => Param(pair, None)
  }

  function ParamsOf(pairs: seq<string>): (r: seq<Param>)
    ensures |r| == |pairs| && forall i :: 0 <= i < |r| ==> r[i] == ParamOf(pairs[i])
  {
    seq(|pairs|, i requires 0 <= i < |pairs| => ParamOf(pairs[i]))
  }

  lemma QueryParams(pairs: seq<string>, query: string)
    requires pairs != [] && query == Join(pairs, '&') && '#' !in query && forall p :: p in pairs ==> '&' !in p
    ensures forall p :: p in ParamsOf(pairs) ==> LegalParam(p)
    ensures RenderQuery(ParamsOf(pairs)) == ['?'] + query
  {
    var params := ParamsOf(pairs);
    forall i | 0 <= i < |pairs|
      ensures LegalParam(params[i])
    {
      assert pairs[i] in pairs;
      if '#' in pairs[i] { PartMembers(pairs, '&', i, '#'); }
      PairLegal(pairs[i]);
    }
    assert RenderParams(params) == pairs;
  }

  lemma PairLegal(pair: string)
    requires '&' !in pair && '#' !in pair
    ensures LegalParam(ParamOf(pair))
  {
    var p := ParamOf(pair);
    assert forall c :: c in p.name ==> c in pair;
    assert p.value.Some? ==> forall c :: c in p.value.value ==> c in pair;
  }

  /** Masking a URL without userinfo hides exactly the query values. */
  lemma MaskOfUrl(u: Url)
    requires Legal(u) && u.userinfo == None
    ensures MaskUrl(Render(u)) == Render(u.(params := HideValues(u.params)))
  {
    var base := ((u.scheme + "://") + u.host) + u.path;
    LayoutAround(u, u.params);
    LayoutAround(u, HideValues(u.params));
    assert Without(base, "?#");
    MaskOfParts(base, u.params, u.fragment);
  }

  /** A text without `://`, a path or a relative URL, is shown with its query values withheld and nothing else changed. */
  lemma DisplayOfRelative(base: string, params: seq<Param>, fragment: Option<string>)
    requires Without(base, "?#") && forall p :: p in params ==> LegalParam(p)
    requires forall k: nat :: !SchemeAt((base + RenderQuery(params)) + RenderFragment(fragment), k)
    ensures RedactForDisplay((base + RenderQuery(params)) + RenderFragment(fragment)) ==
            (base + RenderQuery(HideValues(params))) + RenderFragment(fragment)
  {
    SchemePosition((base + RenderQuery(params)) + RenderFragment(fragment));
    MaskOfParts(base, params, fragment);
  }

  lemma LayoutAround(u: Url, params: seq<Param>)
    requires u.userinfo == None
    ensures Render(u.(params := params)) ==
      ((((u.scheme + "://") + u.host) + u.path) + RenderQuery(params)) + RenderFragment(u.fragment)
  {
    var head, query, fragment := u.scheme + "://", RenderQuery(params), RenderFragment(u.fragment);
    Assoc(head + u.host, u.path + query, fragment);
    Assoc(head, u.host, (u.path + query) + fragment);
    Assoc(head + u.host, u.path, query);
  }

  /** The display form of a URL is the same URL without userinfo and with every value withheld. */
  lemma DisplayOfUrl(u: Url)
    requires Legal(u)
    ensures RedactForDisplay(Render(u)) == Render(Hide(u))
  {
    PasswordOfUrl(u);
    MaskOfUrl(u.(userinfo := None));
  }

  /** So nothing withheld can be told apart: URLs that differ in userinfo and values only are shown alike. */
  lemma DisplayTellsNothing(u: Url, v: Url)
    requires Legal(u) && Legal(v)
    requires u.scheme == v.scheme && u.host == v.host && u.path == v.path && u.fragment == v.fragment
    requires |u.params| == |v.params|
    requires forall i :: 0 <= i < |u.params| ==>
      u.params[i].name == v.params[i].name && u.params[i].value.Some? == v.params[i].value.Some?
    ensures RedactForDisplay(Render(u)) == RedactForDisplay(Render(v))
  {
    DisplayOfUrl(u);
    DisplayOfUrl(v);
    assert HideValues(u.params) == HideValues(v.params);
  }
}
