/** Withholding the userinfo of every URL inside a text, or inside the texts of a JSON value. */
module RedactText {
  import opened Wrappers
  import opened Text
  import opened RedactUrl
  import opened JsonValues

  // ---- Words

  function FirstWord(s: string): (w: string)
    ensures |w| <= |s| && w == s[..|w|]
    ensures forall c :: c in w ==> !IsWhitespace(c)
    ensures |w| < |s| ==> IsWhitespace(s[|w|])
  {
    if s == [] || IsWhitespace(s[0]) then [] else [s[0]] + FirstWord(s[1..])
  }

  /** The maximal whitespace-free pieces, as `split_whitespace` gives them. */
  function Words(s: string): (words: seq<string>)
    decreases |s|
  {
    if s == [] then []
    else if IsWhitespace(s[0]) then Words(s[1..])
    else [FirstWord(s)] + Words(s[|FirstWord(s)|..])
  }

  predicate IsWord(w: string) {
    w != [] && forall c :: c in w ==> !IsWhitespace(c)
  }

  lemma {:induction false} WordsAreWords(s: string)
    ensures forall w :: w in Words(s) ==> IsWord(w)
    decreases |s|
  {
    if s != [] {
      if IsWhitespace(s[0]) { WordsAreWords(s[1..]); } else { WordsAreWords(s[|FirstWord(s)|..]); }
    }
  }

  /** Words with one blank between them. */
  function Unwords(words: seq<string>): string {
    if words == [] then [] else Join(words, ' ')
  }

  lemma {:induction false} FirstWordFinds(w: string, rest: string)
    requires forall c :: c in w ==> !IsWhitespace(c)
    requires rest == [] || IsWhitespace(rest[0])
    ensures FirstWord(w + rest) == w
  {
    if w == [] {
      assert w + rest == rest;
    } else {
      var s := w + rest;
      assert s[0] == w[0] && w[0] in w && s[1..] == w[1..] + rest;
      FirstWordFinds(w[1..], rest);
      assert w == [w[0]] + w[1..];
    }
  }

  /** Cutting a text at any whitespace cuts its words there: nothing is lost before or after it. */
  lemma {:induction false} WordsAround(a: string, c: char, b: string)
    requires IsWhitespace(c)
    ensures Words(a + ([c] + b)) == Words(a) + Words(b)
    decreases |a|
  {
    var s := a + ([c] + b);
    if a == [] {
      assert s[0] == c && s[1..] == b;
    } else if IsWhitespace(a[0]) {
      assert s[0] == a[0] && s[1..] == a[1..] + ([c] + b);
      WordsAround(a[1..], c, b);
    } else {
      var w := FirstWord(a);
      var rest := a[|w|..];
      FirstWordOf(a, [c] + b);
      assert s[0] == a[0] && s[|w|..] == rest + ([c] + b);
      WordsAround(rest, c, b);
      Assoc([w], Words(rest), Words(b));
    }
  }

  /** A whitespace-free text is one word, and the empty text none. */
  lemma WordAlone(w: string)
    requires w == [] || IsWord(w)
    ensures Words(w) == if w == [] then [] else [w]
  {
    if w != [] {
      assert w[0] in w && w + [] == w;
      FirstWordFinds(w, []);
      assert w[|w|..] == [];
    }
  }

  lemma FirstWordOf(a: string, b: string)
    requires a != [] && !IsWhitespace(a[0]) && (b == [] || IsWhitespace(b[0]))
    ensures FirstWord(a + b) == FirstWord(a) && FirstWord(a) != []
  {
    var w := FirstWord(a);
    var rest := a[|w|..];
    assert a == w + rest;
    Assoc(w, rest, b);
    assert rest + b == [] || IsWhitespace((rest + b)[0]);
    FirstWordFinds(w, rest + b);
  }

  lemma {:induction false} WordsUnwords(words: seq<string>)
    requires forall w :: w in words ==> IsWord(w)
    ensures Words(Unwords(words)) == words
  {
    if words != [] {
      var w, others := words[0], words[1..];
      assert w in words && w[0] in w;
      if others == [] {
        FirstWordFinds(w, []);
        assert w + [] == w && w[|w|..] == [];
      } else {
        var rest := [' '] + Unwords(others);
        FirstWordFinds(w, rest);
        assert (w + rest)[|w|..] == rest && rest[1..] == Unwords(others);
        assert forall x :: x in others ==> x in words;
        WordsUnwords(others);
      }
      assert words == [w] + others;
    }
  }

  // ---- Trailing punctuation

  predicate IsTrailing(c: char) {
    c in ")]}>,.;:\"'"
  }

  predicate EndsPlain(s: string) {
    s != [] && !IsTrailing(s[|s| - 1])
  }

  /** The token without its trailing punctuation. */
  function Core(tok: string): (core: string)
    ensures |core| <= |tok| && core == tok[..|core|]
    ensures core == [] || EndsPlain(core)
    ensures forall c :: c in tok[|core|..] ==> IsTrailing(c)
  {
    if tok != [] && IsTrailing(tok[|tok| - 1]) then Core(tok[..|tok| - 1]) else tok
  }

  function Trail(tok: string): (trail: string)
    ensures tok == Core(tok) + trail
  {
    tok[|Core(tok)|..]
  }

  lemma {:induction false} CoreFinds(core: string, trail: string)
    requires core == [] || EndsPlain(core)
    requires forall c :: c in trail ==> IsTrailing(c)
    ensures Core(core + trail) == core && Trail(core + trail) == trail
    decreases |trail|
  {
    var tok := core + trail;
    if trail == [] {
      assert tok == core;
    } else {
      var front := trail[..|trail| - 1];
      assert tok[..|tok| - 1] == core + front;
      assert tok[|tok| - 1] == trail[|trail| - 1] && trail[|trail| - 1] in trail;
      CoreFinds(core, front);
    }
  }

  // ---- Tokens

  function RedactToken(tok: string): string {
    var core := Core(tok);
    if SplitScheme(core).Some? then
      var redacted := RedactPassword(core);
      if redacted == core then tok else redacted + Trail(tok)
    else
      tok
  }

  lemma EndOf(a: string, b: string)
    requires b != []
    ensures EndsPlain(a + b) == EndsPlain(b)
  {
    assert (a + b)[|a + b| - 1] == b[|b| - 1];
  }

  lemma PasswordEnd(core: string)
    requires EndsPlain(core)
    ensures EndsPlain(RedactPassword(core))
  {
    if SplitScheme(core).Some? {
      var (head, rest) := SplitScheme(core).value;
      var host := AfterLast(Authority(rest), '@');
      AuthorityEnd(head, Authority(rest), host, AfterAuthority(rest));
    }
  }

  /** Cutting the front off the authority leaves the end of the URL, or the end of `://`. */
  lemma AuthorityEnd(head: string, authority: string, host: string, tail: string)
    requires EndsPlain(head) && EndsPlain(head + (authority + tail))
    requires |host| <= |authority| && host == authority[|authority| - |host|..]
    ensures EndsPlain(head + (host + tail))
  {
    if tail != [] {
      EndOf(authority, tail);
      EndOf(host, tail);
      EndOf(head, authority + tail);
      EndOf(head, host + tail);
    } else if host != [] {
      var front := authority[..|authority| - |host|];
      assert authority == front + host && authority + tail == authority && host + tail == host;
      EndOf(front, host);
      EndOf(head, authority);
      EndOf(head, host);
    } else {
      assert head + (host + tail) == head;
    }
  }

  /** Redacting a token keeps its trailing punctuation and redacts what stands before it, if there is a userinfo. */
  lemma TokenParts(tok: string)
    ensures RedactToken(tok) == RedactPassword(Core(tok)) + Trail(tok)
    ensures Core(RedactToken(tok)) == RedactPassword(Core(tok)) && Trail(RedactToken(tok)) == Trail(tok)
    ensures RedactToken(tok) != tok <==> HasUserinfo(Core(tok))
  {
    var core, trail := Core(tok), Trail(tok);
    TokenIs(tok);
    PasswordChangesIff(core);
    PasswordCore(core);
    CoreFinds(RedactPassword(core), trail);
    SameBefore(RedactPassword(core), core, trail);
  }

  /** Behind a text that ends in none of them, these ten characters are kept as they are and not taken for the URL. */
  lemma PunctuationKept(core: string, trail: string)
    requires core != [] && core[|core| - 1] !in ")]}>,.;:\"'" && forall c :: c in trail ==> c in ")]}>,.;:\"'"
    ensures RedactToken(core + trail) == RedactPassword(core) + trail
  {
    CoreFinds(core, trail);
    TokenParts(core + trail);
  }

  lemma TokenIs(tok: string)
    ensures RedactToken(tok) == RedactPassword(Core(tok)) + Trail(tok)
  {
  }

  lemma PasswordCore(core: string)
    requires core == [] || EndsPlain(core)
    ensures RedactPassword(core) == [] || EndsPlain(RedactPassword(core))
  {
    if core != [] { PasswordEnd(core); }
  }

  lemma SameBefore(a: string, b: string, trail: string)
    ensures a + trail == b + trail <==> a == b
  {
    assert a + trail == b + trail ==> |a| == |b| && (a + trail)[..|a|] == a && (b + trail)[..|b|] == b;
  }

  lemma TokenTwice(tok: string)
    ensures RedactToken(RedactToken(tok)) == RedactToken(tok)
    ensures !HasUserinfo(Core(RedactToken(tok)))
  {
    TokenParts(tok);
    TokenParts(RedactToken(tok));
    PasswordIdempotent(Core(tok));
  }

  lemma TokenIsWord(tok: string)
    requires IsWord(tok)
    ensures IsWord(RedactToken(tok))
  {
    var core, trail := Core(tok), Trail(tok);
    TokenParts(tok);
    PasswordKeepsOnlyOwn(core);
    PartsBlankFree(core, trail, RedactPassword(core));
    if core != [] { PasswordEnd(core); } else { assert trail == tok; }
  }

  lemma PartsBlankFree(core: string, trail: string, redacted: string)
    requires forall c :: c in core + trail ==> !IsWhitespace(c)
    requires forall c :: c in redacted ==> c in core
    ensures forall c :: c in redacted + trail ==> !IsWhitespace(c)
  {
    assert forall c :: c in core || c in trail ==> c in core + trail;
  }

  // ---- Texts

  function RedactTokens(words: seq<string>): (r: seq<string>)
    ensures |r| == |words| && forall i :: 0 <= i < |r| ==> r[i] == RedactToken(words[i])
  {
    seq(|words|, i requires 0 <= i < |words| => RedactToken(words[i]))
  }

  function RedactInText(text: string): string {
    Unwords(RedactTokens(Words(text)))
  }

  /** The words of the result are the words of the text, each redacted on its own. */
  lemma TextWords(text: string)
    ensures Words(RedactInText(text)) == RedactTokens(Words(text))
  {
    var words := Words(text);
    WordsAreWords(text);
    forall i | 0 <= i < |words|
      ensures IsWord(RedactTokens(words)[i])
    {
      assert words[i] in words;
      TokenIsWord(words[i]);
    }
    WordsUnwords(RedactTokens(words));
  }

  /** No word of the result has a userinfo left, and redacting again changes nothing. */
  lemma TextIdempotent(text: string)
    ensures forall w :: w in Words(RedactInText(text)) ==> !HasUserinfo(Core(w))
    ensures RedactInText(RedactInText(text)) == RedactInText(text)
  {
    var words := Words(text);
    TextWords(text);
    var once := RedactTokens(words);
    forall i | 0 <= i < |words|
      ensures RedactToken(once[i]) == once[i] && !HasUserinfo(Core(once[i]))
    {
      TokenTwice(words[i]);
    }
    assert RedactTokens(once) == once;
  }

  // ---- JSON values

  function Redacted(v: Json): Json {
    match v
    case String(s) => String(RedactInText(s))
    case Array(items) => Array(seq(|items|, i requires 0 <= i < |items| => Redacted(items[i])))
    case Object(fields) => Object(map k | k in fields :: Redacted(fields[k]))
    case _ => v
  }

  predicate ItemsRedacted(items: seq<Json>, out: seq<Json>, done: nat) {
    && |out| == |items|
    && forall i :: 0 <= i < |out| ==> out[i] == if i < done then Redacted(items[i]) else items[i]
  }

  predicate FieldsRedacted(fields: map<string, Json>, out: map<string, Json>, left: set<string>) {
    && out.Keys == fields.Keys
    && forall k :: k in fields ==> out[k] == if k in left then fields[k] else Redacted(fields[k])
  }

  /** The walk over a value that rewrites every text in it. */
  method RedactValue(v: Json) returns (r: Json)
    ensures r == Redacted(v)
    decreases v
  {
    match v {
      case String(s) =>
        var red := RedactInText(s);
        r := if red != s then String(red) else v;
      case Array(items) =>
        var out := items;
        for i := 0 to |items|
          invariant ItemsRedacted(items, out, i)
        {
          var item := RedactValue(out[i]);
          out := out[i := item];
        }
        assert out == Redacted(v).items;
        r := Array(out);
      case Object(fields) =>
        var out, left := fields, fields.Keys;
        while left != {}
          invariant left <= fields.Keys && FieldsRedacted(fields, out, left)
          decreases |left|
        {
          var k :| k in left;
          var value := RedactValue(out[k]);
          out := out[k := value];
          left := left - {k};
        }
        assert out == Redacted(v).fields;
        r := Object(out);
      case _ =>
        r := v;
    }
  }

  lemma {:induction false} ValueIdempotent(v: Json)
    ensures Redacted(Redacted(v)) == Redacted(v)
  {
    match v
    case String(s) => TextIdempotent(s);
    case Array(items) =>
      forall i | 0 <= i < |items|
        ensures Redacted(Redacted(items[i])) == Redacted(items[i])
      {
        ValueIdempotent(items[i]);
      }
      assert Redacted(Redacted(v)).items == Redacted(v).items;
    case Object(fields) =>
      forall k | k in fields
        ensures Redacted(Redacted(fields[k])) == Redacted(fields[k])
      {
        ValueIdempotent(fields[k]);
      }
      assert Redacted(Redacted(v)).fields == Redacted(v).fields;
    case _ =>
  }

  /** What stands at a path is what stood there, redacted. */
  lemma {:induction false} ValueAt(v: Json, path: seq<Step>)
    ensures At(Redacted(v), path) == (match At(v, path) case Some(w) => Some(Redacted(w)) case None => None)
    decreases path
  {
    if path != [] && Child(v, path[0]).Some? { ValueAt(Child(v, path[0]).value, path[1..]); }
  }

  /**
   * The whole result, path by path: every text is redacted where it stands, every other leaf stands unchanged, arrays
   * keep their length and objects their keys, and nothing comes to stand where nothing stood.
   */
  lemma LeavesRedacted(v: Json, path: seq<Step>)
    ensures At(Redacted(v), path).Some? <==> At(v, path).Some?
    ensures At(v, path).Some? ==>
            var was, now := At(v, path).value, At(Redacted(v), path).value;
            match was
            case String(s) => now == String(RedactInText(s))
            case Array(items) => now.Array? && |now.items| == |items|
            case Object(fields) => now.Object? && now.fields.Keys == fields.Keys
            case _ => now == was
  {
    ValueAt(v, path);
  }

  /** So no text in the result holds a word with a userinfo. */
  lemma NoUserinfoInValue(v: Json, path: seq<Step>, s: string)
    requires At(Redacted(v), path) == Some(String(s))
    ensures forall w :: w in Words(s) ==> !HasUserinfo(Core(w))
  {
    LeavesRedacted(v, path);
    var was :| At(v, path) == Some(String(was));
    TextIdempotent(was);
  }
}
