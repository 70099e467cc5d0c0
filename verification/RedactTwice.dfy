/** When showing a URL that is already in its display form changes it again. */
module RedactTwice {
  import opened Wrappers
  import opened Text
  import opened RedactUrl
  import opened RedactUrlLaws

  // ---- Cutting the values out

  /** A parameter without its value. */
  function CutPair(pair: string): string {
    Before(pair, '=')
  }

  function CutPairs(pairs: seq<string>): (r: seq<string>)
    ensures |r| == |pairs| && forall i :: 0 <= i < |r| ==> r[i] == CutPair(pairs[i])
  {
    seq(|pairs|, i requires 0 <= i < |pairs| => CutPair(pairs[i]))
  }

  function CutQuery(query: string): string {
    Join(CutPairs(Split(query, '&')), '&')
  }

  function CutBeforeFragment(s: string): string {
    match SplitOnce(s, '?')
    case Some((base, query)) => base + (['?'] + CutQuery(query))
    case None => s
  }

  /** Base, query names and fragment of a URL. */
  function CutUrl(url: string): string {
    match SplitOnce(url, '#')
    case Some((before, fragment)) => CutBeforeFragment(before) + (['#'] + fragment)
    case None => CutBeforeFragment(url)
  }

  // ---- A piece that decides nothing

  /** Without any character that could start a `://`, end an authority or mark a userinfo. */
  predicate Inert(mid: string) {
    Without(mid, ":/?#@")
  }

  predicate EndsPiece(b: string) {
    b == [] || b[0] == '&' || b[0] == '#'
  }

  lemma SchemeHere(t: string)
    ensures HasUserinfo([':', '/', '/'] + t) <==> '@' in Authority(t)
  {
    var s := [':', '/', '/'] + t;
    assert s[..3] == "://" && s[3..] == t;
  }

  lemma NoSchemeHere(c: char, t: string)
    requires !SchemeAt([c] + t, 0)
    ensures HasUserinfo([c] + t) == HasUserinfo(t)
    ensures SplitScheme([c] + t).None? == SplitScheme(t).None?
  {
    var s := [c] + t;
    assert s[1..] == t;
    if |s| >= 3 { SchemeAtStart(s); }
  }

  lemma SkipOne(c: char, t: string)
    requires c !in ":/?#@"
    ensures HasUserinfo([c] + t) == HasUserinfo(t)
    ensures '@' in Authority([c] + t) <==> '@' in Authority(t)
  {
    assert c != ':' && c != '/' && c != '?' && c != '#' && c != '@';
    NoSchemeHere(c, t);
    assert ([c] + t)[1..] == t;
  }

  lemma {:induction false} SkipInert(mid: string, b: string)
    requires Inert(mid)
    ensures HasUserinfo(mid + b) == HasUserinfo(b)
    ensures '@' in Authority(mid + b) <==> '@' in Authority(b)
  {
    if mid == [] {
      assert mid + b == b;
    } else {
      var c, rest := mid[0], mid[1..];
      assert c in mid && mid + b == [c] + (rest + b);
      SkipOne(c, rest + b);
      SkipInert(rest, b);
    }
  }

  lemma {:induction false} EraseInAuthority(a: string, mid: string, b: string)
    requires Inert(mid)
    ensures '@' in Authority(a + (mid + b)) <==> '@' in Authority(a + b)
  {
    if a == [] {
      assert a + (mid + b) == mid + b && a + b == b;
      SkipInert(mid, b);
    } else {
      var c, rest := a[0], a[1..];
      EraseInAuthority(rest, mid, b);
      assert a == [c] + rest;
      Assoc([c], rest, mid + b);
      Assoc([c], rest, b);
      AuthorityCons(c, rest + (mid + b));
      AuthorityCons(c, rest + b);
    }
  }

  lemma AuthorityCons(c: char, t: string)
    ensures '@' in Authority([c] + t) <==> !EndsAuthority(c) && (c == '@' || '@' in Authority(t))
  {
    assert ([c] + t)[1..] == t;
  }

  /** The `://` at the start of a text is not made or broken by an inert piece further on. */
  lemma SchemeApart(a: string, mid: string, b: string)
    requires a != [] && Inert(mid) && EndsPiece(b)
    ensures SchemeAt(a + b, 0) == SchemeAt(a + (mid + b), 0) == SchemeAt(a, 0)
  {
    var s, t := a + b, a + (mid + b);
    assert |a| < |s| ==> s[|a|] == b[0];
    assert mid != [] ==> mid[0] in mid;
    assert |a| < |t| ==> t[|a|] == (if mid == [] then b[0] else mid[0]);
    assert forall k :: 0 <= k < |a| ==> s[k] == a[k] && t[k] == a[k];
  }

  /** Cutting an inert piece out in front of `&`, `#` or the end does not change whether there is a userinfo. */
  lemma {:induction false} Erase(a: string, mid: string, b: string)
    requires Inert(mid) && EndsPiece(b)
    ensures HasUserinfo(a + (mid + b)) == HasUserinfo(a + b)
    decreases |a|
  {
    if a == [] {
      assert a + (mid + b) == mid + b && a + b == b;
      SkipInert(mid, b);
    } else if SchemeAt(a, 0) {
      var rest := a[3..];
      assert a + (mid + b) == [':', '/', '/'] + (rest + (mid + b));
      assert a + b == [':', '/', '/'] + (rest + b);
      SchemeHere(rest + (mid + b));
      SchemeHere(rest + b);
      EraseInAuthority(rest, mid, b);
    } else {
      var c, rest := a[0], a[1..];
      SchemeApart(a, mid, b);
      assert a + (mid + b) == [c] + (rest + (mid + b)) && a + b == [c] + (rest + b);
      NoSchemeHere(c, rest + (mid + b));
      NoSchemeHere(c, rest + b);
      Erase(rest, mid, b);
    }
  }

  // ---- Masked values decide nothing

  lemma MaskFree(c: char)
    requires c == ':' || c == '/' || c == '?' || c == '#' || c == '@'
    ensures c !in REDACTED
  {
    RedactedIsPlain(c);
  }

  lemma MaskIsInert()
    ensures Inert(['='] + REDACTED)
  {
    MaskFree(':');
    MaskFree('/');
    MaskFree('?');
    MaskFree('#');
    MaskFree('@');
    PlainIsInert(REDACTED);
  }

  lemma PlainIsInert(text: string)
    requires ':' !in text && '/' !in text && '?' !in text && '#' !in text && '@' !in text
    ensures Inert(['='] + text)
  {
  }

  lemma {:induction false} MaskedPairs(p: string, parts: seq<string>, s: string)
    requires parts != [] && (s == [] || s[0] == '#')
    ensures HasUserinfo(p + (Join(MaskPairs(parts), '&') + s)) == HasUserinfo(p + (Join(CutPairs(parts), '&') + s))
    decreases |parts|
  {
    var name, mid := CutPair(parts[0]), if SplitOnce(parts[0], '=').Some? then ['='] + REDACTED else [];
    assert MaskPair(parts[0]) == name + mid;
    MaskIsInert();
    if |parts| == 1 {
      Assoc(p + name, mid, s);
      Assoc(p, name, mid + s);
      Assoc(name, mid, s);
      Assoc(p, name, s);
      Erase(p + name, mid, s);
    } else {
      var rest := parts[1..];
      assert MaskPairs(parts)[1..] == MaskPairs(rest) && CutPairs(parts)[1..] == CutPairs(rest);
      var masked, cut := Join(MaskPairs(rest), '&'), Join(CutPairs(rest), '&');
      PairFirst(p, name, mid, masked, s);
      PairFirst(p, name, [], cut, s);
      assert name + [] == name && [] + (['&'] + (cut + s)) == ['&'] + (cut + s);
      Erase(p + name, mid, ['&'] + (masked + s));
      Assoc(p + name, ['&'], masked + s);
      Assoc(p + name, ['&'], cut + s);
      MaskedPairs((p + name) + ['&'], rest, s);
    }
  }

  /** A first parameter in front of the others. */
  lemma PairFirst(p: string, name: string, mid: string, others: string, s: string)
    ensures p + (((name + mid) + (['&'] + others)) + s) == (p + name) + (mid + (['&'] + (others + s)))
  {
    Assoc(name + mid, ['&'] + others, s);
    Assoc(['&'], others, s);
    Assoc(name, mid, ['&'] + (others + s));
    Assoc(p, name, mid + (['&'] + (others + s)));
  }

  lemma MaskedBeforeFragment(before: string, s: string)
    requires s == [] || s[0] == '#'
    ensures HasUserinfo(MaskBeforeFragment(before) + s) == HasUserinfo(CutBeforeFragment(before) + s)
  {
    if SplitOnce(before, '?').Some? {
      var (base, query) := SplitOnce(before, '?').value;
      Assoc(base, ['?'], MaskQuery(query));
      Assoc(base, ['?'], CutQuery(query));
      Assoc(base + ['?'], MaskQuery(query), s);
      Assoc(base + ['?'], CutQuery(query), s);
      MaskedPairs(base + ['?'], Split(query, '&'), s);
    }
  }

  lemma MaskedIffCut(url: string)
    ensures HasUserinfo(MaskUrl(url)) == HasUserinfo(CutUrl(url))
  {
    if SplitOnce(url, '#').Some? {
      var (before, fragment) := SplitOnce(url, '#').value;
      MaskedBeforeFragment(before, ['#'] + fragment);
    } else {
      MaskedBeforeFragment(url, []);
      assert MaskBeforeFragment(url) + [] == MaskBeforeFragment(url);
      assert CutBeforeFragment(url) + [] == CutBeforeFragment(url);
    }
  }

  /**
   * The display form of a URL is final exactly when, in its base, query names and fragment with the first userinfo
   * taken off, the first `://` is followed by no `@` before the next `/`, `?` or `#`.
   */
  lemma DisplayTwiceIff(url: string)
    ensures RedactForDisplay(RedactForDisplay(url)) == RedactForDisplay(url) <==>
            !AtBehindScheme(CutUrl(RedactPassword(url)))
  {
    DisplayTwiceGuard(url);
    MaskedIffCut(RedactPassword(url));
    UserinfoPosition(CutUrl(RedactPassword(url)));
  }

  /** For a URL without userinfo the condition is on the URL as it stands. */
  lemma DisplayTwiceIffPlain(url: string)
    requires !AtBehindScheme(url)
    ensures RedactForDisplay(RedactForDisplay(url)) == RedactForDisplay(url) <==> !AtBehindScheme(CutUrl(url))
  {
    UserinfoPosition(url);
    PasswordChangesIff(url);
    DisplayTwiceIff(url);
  }

  // ---- URLs whose display form is always final

  /** No `://`, or no `?` before the first `#`, or the first `://` before any `?` and `#`. */
  predicate Settled(url: string) {
    SplitScheme(url).None? || '?' !in Before(url, '#') || SchemeFirst(url)
  }

  predicate SchemeFirst(url: string) {
    SplitScheme(url).Some? && Without(SplitScheme(url).value.0, "?#")
  }

  lemma MaskKeepsHead(head: string, rest: string)
    requires Without(head, "?#")
    ensures MaskUrl(head + rest) == head + MaskUrl(rest)
  {
    MaskKeepsHeadSplit(head, rest, '#');
    if SplitOnce(rest, '#').Some? {
      var (before, fragment) := SplitOnce(rest, '#').value;
      MaskKeepsHeadBefore(head, before);
      Assoc(head, MaskBeforeFragment(before), ['#'] + fragment);
    } else {
      MaskKeepsHeadBefore(head, rest);
    }
  }

  lemma MaskKeepsHeadSplit(head: string, rest: string, c: char)
    requires c !in head
    ensures SplitOnce(head + rest, c) ==
      match SplitOnce(rest, c)
      case Some((before, after)) => Some((head + before, after))
      case None => None
  {
    if SplitOnce(rest, c).Some? {
      var (before, after) := SplitOnce(rest, c).value;
      Assoc(head, before, [c] + after);
      SplitOnceFinds(head + before, c, after);
    }
  }

  lemma MaskKeepsHeadBefore(head: string, rest: string)
    requires Without(head, "?#")
    ensures MaskBeforeFragment(head + rest) == head + MaskBeforeFragment(rest)
  {
    MaskKeepsHeadSplit(head, rest, '?');
    if SplitOnce(rest, '?').Some? {
      var (base, query) := SplitOnce(rest, '?').value;
      Assoc(head, base, ['?'] + MaskQuery(query));
    }
  }

  lemma MaskStart(s: string)
    requires s == [] || EndsAuthority(s[0])
    ensures MaskUrl(s) == [] || EndsAuthority(MaskUrl(s)[0])
  {
    if s != [] && s[0] == '/' {
      var rest := s[1..];
      assert s == "/" + rest;
      MaskKeepsHead("/", rest);
    }
  }

  lemma SchemeFirstSettles(url: string)
    requires SchemeFirst(url)
    ensures !HasUserinfo(RedactForDisplay(url))
  {
    var (head, rest) := SplitScheme(url).value;
    var host, tail := AfterLast(Authority(rest), '@'), AfterAuthority(rest);
    assert RedactPassword(url) == (head + host) + tail by { Assoc(head, host, tail); }
    assert Without(head + host, "?#");
    MaskKeepsHead(head + host, tail);
    Assoc(head, host, MaskUrl(tail));
    MaskStart(tail);
    PasswordOf(head, url, host, MaskUrl(tail));
  }

  lemma BeforeConcat(a: string, b: string, c: char)
    ensures Before(a + b, c) == if c in a then Before(a, c) else a + Before(b, c)
  {
    if c in a {
      var (x, y) := SplitOnce(a, c).value;
      Assoc(x, [c] + y, b);
      Assoc([c], y, b);
      SplitOnceFinds(x, c, y + b);
    } else if c in b {
      var (x, y) := SplitOnce(b, c).value;
      Assoc(a, x, [c] + y);
      SplitOnceFinds(a + x, c, y);
    }
  }

  /** Taking a piece without `?` and `#` out of a URL puts no `?` before its first `#`. */
  lemma NoQueryErase(a: string, x: string, b: string)
    requires '?' !in x && '#' !in x && '?' !in Before(a + (x + b), '#')
    ensures '?' !in Before(a + b, '#')
  {
    BeforeConcat(a, x + b, '#');
    BeforeConcat(x, b, '#');
    BeforeConcat(a, b, '#');
  }

  lemma NoQueryMasks(url: string)
    requires '?' !in Before(url, '#')
    ensures MaskUrl(url) == url
  {
  }

  lemma NoQueryFront(head: string, authority: string, host: string, tail: string)
    requires '?' !in authority && '#' !in authority && '?' !in Before(head + (authority + tail), '#')
    requires |host| <= |authority| && host == authority[|authority| - |host|..]
    ensures '?' !in Before(head + (host + tail), '#')
  {
    var gone := authority[..|authority| - |host|];
    assert authority == gone + host;
    Assoc(gone, host, tail);
    NoQueryErase(head, gone, host + tail);
  }

  /** What is left of a URL once the front of its first authority is gone still has no query. */
  lemma NoQueryPassword(url: string)
    requires '?' !in Before(url, '#') && SplitScheme(url).Some?
    ensures '?' !in Before(RedactPassword(url), '#')
  {
    var (head, rest) := SplitScheme(url).value;
    NoQueryFront(head, Authority(rest), AfterLast(Authority(rest), '@'), AfterAuthority(rest));
  }

  lemma NoQuerySettles(url: string)
    requires '?' !in Before(url, '#')
    ensures !HasUserinfo(RedactForDisplay(url))
  {
    PasswordIdempotent(url);
    if SplitScheme(url).Some? { NoQueryPassword(url); }
    NoQueryMasks(RedactPassword(url));
  }

  lemma {:induction false} NoSchemeSuffix(x: string, b: string)
    requires SplitScheme(x + b).None?
    ensures SplitScheme(b).None?
  {
    if x == [] {
      assert x + b == b;
    } else {
      assert x + b == [x[0]] + (x[1..] + b) && (x + b)[1..] == x[1..] + b;
      NoSchemeSuffix(x[1..], b);
    }
  }

  lemma {:induction false} NoSchemeErase(a: string, x: string, b: string)
    requires SplitScheme(a + (x + b)).None? && EndsPiece(b)
    ensures SplitScheme(a + b).None?
    decreases |a|
  {
    if a == [] {
      assert a + (x + b) == x + b && a + b == b;
      NoSchemeSuffix(x, b);
    } else {
      var c, rest := a[0], a[1..];
      assert a + (x + b) == [c] + (rest + (x + b)) && a + b == [c] + (rest + b);
      assert (a + (x + b))[1..] == rest + (x + b);
      SchemePosition(a + (x + b));
      SchemeApart(a, [], b);
      assert [] + b == b;
      assert forall k :: 0 <= k < |a| ==> (a + (x + b))[k] == a[k];
      assert !SchemeAt(a, 0);
      NoSchemeHere(c, rest + (x + b));
      NoSchemeHere(c, rest + b);
      NoSchemeErase(rest, x, b);
    }
  }

  lemma {:induction false} NoSchemePairs(p: string, parts: seq<string>, s: string)
    requires parts != [] && (s == [] || s[0] == '#') && SplitScheme(p + (Join(parts, '&') + s)).None?
    ensures SplitScheme(p + (Join(CutPairs(parts), '&') + s)).None?
    decreases |parts|
  {
    var name := CutPair(parts[0]);
    var value := parts[0][|name|..];
    assert parts[0] == name + value;
    if |parts| == 1 {
      Assoc(p + name, value, s);
      Assoc(p, name, value + s);
      Assoc(name, value, s);
      Assoc(p, name, s);
      NoSchemeErase(p + name, value, s);
    } else {
      var rest := parts[1..];
      assert CutPairs(parts)[1..] == CutPairs(rest);
      var others, cut := Join(rest, '&'), Join(CutPairs(rest), '&');
      PairFirst(p, name, value, others, s);
      PairFirst(p, name, [], cut, s);
      assert name + [] == name && [] + (['&'] + (cut + s)) == ['&'] + (cut + s);
      NoSchemeErase(p + name, value, ['&'] + (others + s));
      Assoc(p + name, ['&'], others + s);
      Assoc(p + name, ['&'], cut + s);
      NoSchemePairs((p + name) + ['&'], rest, s);
    }
  }

  lemma NoSchemeBeforeFragment(before: string, s: string)
    requires (s == [] || s[0] == '#') && SplitScheme(before + s).None?
    ensures SplitScheme(CutBeforeFragment(before) + s).None?
  {
    if SplitOnce(before, '?').Some? {
      var (base, query) := SplitOnce(before, '?').value;
      JoinSplit(query, '&');
      Assoc(base, ['?'], query);
      Assoc(base, ['?'], CutQuery(query));
      Assoc(base + ['?'], query, s);
      Assoc(base + ['?'], CutQuery(query), s);
      NoSchemePairs(base + ['?'], Split(query, '&'), s);
    }
  }

  lemma NoSchemeSettles(url: string)
    requires SplitScheme(url).None?
    ensures !HasUserinfo(RedactForDisplay(url))
  {
    MaskedIffCut(url);
    if SplitOnce(url, '#').Some? {
      var (before, fragment) := SplitOnce(url, '#').value;
      NoSchemeBeforeFragment(before, ['#'] + fragment);
    } else {
      assert url + [] == url && CutBeforeFragment(url) + [] == CutBeforeFragment(url);
      NoSchemeBeforeFragment(url, []);
    }
  }

  /** For such URLs the display form is final. */
  lemma SettledIsFinal(url: string)
    requires Settled(url)
    ensures RedactForDisplay(RedactForDisplay(url)) == RedactForDisplay(url)
  {
    if SplitScheme(url).None? {
      NoSchemeSettles(url);
    } else if SchemeFirst(url) {
      SchemeFirstSettles(url);
    } else {
      NoQuerySettles(url);
    }
    DisplayTwiceGuard(url);
  }

  // ---- URLs whose display form is not final

  /**
   * The URLs `b?n=v://w&m://i@h`. The first pass finds the `://` inside the value and no userinfo behind it, then
   * masks that value; the second pass finds the other `://`, which has one.
   */
  datatype Late = Late(b: string, n: string, v: string, w: string, m: string, i: string, h: string) {
    predicate Valid() {
      && Without(b, ":?#") && Without(n, ":=&#") && Without(v, ":&#") && Without(w, "/?&#@")
      && Without(m, ":/?=&#@") && Without(i, "/?=&#") && Without(h, "/?=&#@")
    }

    function Front(): string {
      b + (['?'] + (n + (['='] + v)))
    }

    /** The masked query, before its last parameter. */
    function ShownFront(): string {
      b + (['?'] + (n + (['='] + REDACTED) + (['&'] + m)))
    }

    function Last(): string {
      (m + "://") + (i + (['@'] + h))
    }

    function Params(): seq<Param> {
      [Param(n, Some((v + "://") + w)), Param(Last(), None)]
    }

    function Text(): string {
      b + (['?'] + Join(RenderParams(Params()), '&'))
    }

    function Shown(): string {
      b + (['?'] + Join(RenderParams(HideValues(Params())), '&'))
    }
  }

  lemma JoinTwo(x: string, y: string)
    ensures Join([x, y], '&') == x + (['&'] + y)
  {
    assert [x, y][1..] == [y];
  }

  lemma LateText(u: Late)
    ensures u.Text() == (u.Front() + "://") + ((u.w + (['&'] + (u.m + [':']))) + ("//" + (u.i + (['@'] + u.h))))
  {
    JoinTwo(RenderParam(u.Params()[0]), RenderParam(u.Params()[1]));
    assert RenderParams(u.Params()) == [RenderParam(u.Params()[0]), RenderParam(u.Params()[1])];
  }

  lemma LateShown(u: Late)
    ensures u.Shown() == (u.ShownFront() + "://") + ((u.i + (['@'] + u.h)) + "")
  {
    var hidden := HideValues(u.Params());
    JoinTwo(RenderParam(hidden[0]), RenderParam(hidden[1]));
    assert RenderParams(hidden) == [RenderParam(hidden[0]), RenderParam(hidden[1])];
  }

  lemma ConcatWithout(x: string, y: string, c: char)
    requires c !in x && c !in y
    ensures c !in x + y
  {
  }

  lemma LateFront(u: Late)
    requires u.Valid()
    ensures ':' !in u.Front()
  {
    ConcatWithout(u.n, ['='] + u.v, ':');
    ConcatWithout(u.b, ['?'] + (u.n + (['='] + u.v)), ':');
  }

  lemma LateShownFront(u: Late)
    requires u.Valid()
    ensures ':' !in u.ShownFront()
  {
    MaskFree(':');
    var hidden, amp := ['='] + REDACTED, ['&'] + u.m;
    ConcatWithout(u.n, hidden, ':');
    ConcatWithout(u.n + hidden, amp, ':');
    ConcatWithout(['?'], u.n + hidden + amp, ':');
    ConcatWithout(u.b, ['?'] + (u.n + hidden + amp), ':');
  }

  lemma LatePassword(u: Late)
    requires u.Valid()
    ensures RedactPassword(u.Text()) == u.Text()
  {
    var head, authority, tail := u.Front() + "://", u.w + (['&'] + (u.m + [':'])), "//" + (u.i + (['@'] + u.h));
    LateText(u);
    LateFront(u);
    SchemeIs(u.Front(), "");
    assert head + "" == head;
    LateAuthority(u);
    AuthorityUnchanged(authority);
    PasswordOf(head, head, authority, tail);
  }

  lemma LateAuthority(u: Late)
    requires u.Valid()
    ensures Without(u.w + (['&'] + (u.m + [':'])), "/?#@")
  {
  }

  lemma AuthorityUnchanged(authority: string)
    requires Without(authority, "/?#@")
    ensures forall c :: c in authority ==> !EndsAuthority(c)
    ensures AfterLast(authority, '@') == authority
  {
    assert '@' in "/?#@";
  }

  lemma LateParams(u: Late)
    requires u.Valid()
    ensures forall p :: p in u.Params() ==> LegalParam(p)
  {
    assert Without((u.v + "://") + u.w, "&#") && Without(u.Last(), "=&#");
  }

  lemma LateMask(u: Late)
    requires u.Valid()
    ensures MaskUrl(u.Text()) == u.Shown()
  {
    var query := Join(RenderParams(u.Params()), '&');
    LateParams(u);
    MaskParams(u.Params());
    SplitOnceFinds(u.b, '?', query);
  }

  lemma LateUserinfo(u: Late)
    requires u.Valid()
    ensures HasUserinfo(u.Shown())
  {
    var head, authority := u.ShownFront() + "://", u.i + (['@'] + u.h);
    LateShown(u);
    LateShownFront(u);
    assert Without(authority, "/?#");
    SchemeIs(u.ShownFront(), "");
    assert head + "" == head;
    PasswordOf(head, head, authority, "");
  }

  /** For these the display form is not final: showing it again drops the userinfo that the first pass left in. */
  lemma LateFails(u: Late)
    requires u.Valid()
    ensures RedactForDisplay(u.Text()) == u.Shown()
    ensures RedactForDisplay(u.Shown()) != u.Shown()
  {
    LatePassword(u);
    LateMask(u);
    LateUserinfo(u);
    DisplayTwiceGuard(u.Text());
  }

  /**
   * The URLs `b?m://n=w/y&i@h`, or with a `?` for the `/`. The first pass finds no userinfo because the value ends the
   * authority; it then masks that value, and the authority reaches to the `@` of the next parameter.
   */
  datatype Ended = Ended(b: string, m: string, n: string, w: string, stop: char, y: string, i: string, h: string) {
    predicate Valid() {
      && Without(b, ":?#") && Without(m, ":=&#") && Without(n, "/?=&#@") && Without(w, "/?&#@")
      && (stop == '/' || stop == '?') && Without(y, "&#") && Without(i, "/?=&#") && Without(h, "/?=&#")
    }

    function Front(): string {
      b + (['?'] + m)
    }

    function Name(): string {
      (m + "://") + n
    }

    function Value(): string {
      w + ([stop] + y)
    }

    function Last(): string {
      i + (['@'] + h)
    }

    function Params(): seq<Param> {
      [Param(Name(), Some(Value())), Param(Last(), None)]
    }

    function Text(): string {
      b + (['?'] + Join(RenderParams(Params()), '&'))
    }

    function Shown(): string {
      b + (['?'] + Join(RenderParams(HideValues(Params())), '&'))
    }

    /** What the second pass takes for the authority. */
    function ShownAuthority(): string {
      n + ((['='] + REDACTED) + (['&'] + Last()))
    }
  }

  lemma EndedText(u: Ended)
    ensures u.Text() == (u.Front() + "://") + ((u.n + (['='] + u.w)) + ([u.stop] + (u.y + (['&'] + u.Last()))))
  {
    JoinTwo(RenderParam(u.Params()[0]), RenderParam(u.Params()[1]));
    assert RenderParams(u.Params()) == [RenderParam(u.Params()[0]), RenderParam(u.Params()[1])];
  }

  lemma EndedShown(u: Ended)
    ensures u.Shown() == (u.Front() + "://") + (u.ShownAuthority() + "")
  {
    var hidden := HideValues(u.Params());
    JoinTwo(RenderParam(hidden[0]), RenderParam(hidden[1]));
    assert RenderParams(hidden) == [RenderParam(hidden[0]), RenderParam(hidden[1])];
  }

  lemma EndedPassword(u: Ended)
    requires u.Valid()
    ensures RedactPassword(u.Text()) == u.Text()
  {
    var head, authority, tail := u.Front() + "://", u.n + (['='] + u.w), [u.stop] + (u.y + (['&'] + u.Last()));
    EndedText(u);
    SchemeIs(u.Front(), "");
    assert head + "" == head;
    EndedValue(u);
    AuthorityUnchanged(authority);
    PasswordOf(head, head, authority, tail);
  }

  lemma EndedValue(u: Ended)
    requires u.Valid()
    ensures Without(u.n + (['='] + u.w), "/?#@")
  {
  }

  lemma EndedMask(u: Ended)
    requires u.Valid()
    ensures MaskUrl(u.Text()) == u.Shown()
  {
    assert Without(u.Name(), "=&#") && Without(u.Value(), "&#") && Without(u.Last(), "=&#");
    MaskParams(u.Params());
    SplitOnceFinds(u.b, '?', Join(RenderParams(u.Params()), '&'));
  }

  lemma EndedUserinfo(u: Ended)
    requires u.Valid()
    ensures HasUserinfo(u.Shown())
  {
    var head, authority := u.Front() + "://", u.ShownAuthority();
    EndedShown(u);
    SchemeIs(u.Front(), "");
    assert head + "" == head;
    EndedAuthority(u);
    PasswordOf(head, head, authority, "");
  }

  lemma EndedAuthority(u: Ended)
    requires u.Valid()
    ensures Without(u.ShownAuthority(), "/?#") && '@' in u.ShownAuthority()
  {
    MaskIsInert();
    assert Without(u.Last(), "/?#") && '@' in u.Last();
  }

  /** For these, too, showing the display form again drops what the first pass left in. */
  lemma EndedFails(u: Ended)
    requires u.Valid()
    ensures RedactForDisplay(u.Text()) == u.Shown()
    ensures RedactForDisplay(u.Shown()) != u.Shown()
  {
    EndedPassword(u);
    EndedMask(u);
    EndedUserinfo(u);
    DisplayTwiceGuard(u.Text());
  }
}
