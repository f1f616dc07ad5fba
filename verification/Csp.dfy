/** Rewriting a Content-Security-Policy so that the page can be framed and the inspector script
    can load (daemon/preview_proxy.py, rewrite_csp). A header value is a list of policies, a
    policy a list of directives, a directive a list of words; the lists are read from the text
    and printed back into it. */
module Csp {
  import opened Basics
  import opened Text

  type Words = seq<string>

  const ANCESTORS := "frame-ancestors"
  const DEFAULT := "default-src"
  const SCRIPT := "script-src"
  const SCRIPT_ELEM := "script-src-elem"

  /** A serialised origin: nothing in it can be read as policy punctuation. */
  predicate OriginOk(o: string) {
    o != "" && o[0] != '\'' && IsWord(o)
  }

  /** A word of a directive: no white space and none of the two separators. */
  predicate IsWord(w: string) {
    w != "" && forall i :: 0 <= i < |w| ==> w[i] !in SPACES && w[i] != ';' && w[i] != ','
  }

  // ----- str.split() -----

  function WordLength(s: string): nat {
    if s == "" || s[0] in SPACES then 0 else 1 + WordLength(s[1..])
  }

  lemma {:induction false} WordLengthIs(s: string)
    ensures WordLength(s) <= |s|
    ensures forall i :: 0 <= i < WordLength(s) ==> s[i] !in SPACES
    ensures WordLength(s) < |s| ==> s[WordLength(s)] in SPACES
  {
    if s != "" && s[0] !in SPACES {
      WordLengthIs(s[1..]);
      forall i | 0 <= i < WordLength(s) ensures s[i] !in SPACES {
        if i > 0 { assert s[1..][i - 1] == s[i]; }
      }
    }
  }

  function WordsOf(s: string): Words
    decreases |s|
  {
    LStripShape(s, SPACES);
    var t := LStrip(s, SPACES);
    if t == "" then []
    else
      WordLengthIs(t);
      var n := WordLength(t);
      if n == 0 then [] else [t[..n]] + WordsOf(t[n..])
  }

  // ----- one directive -----

  function Name(d: string): string {
    var ws := WordsOf(d);
    if ws == [] then "" else Lower(ws[0])
  }

  function Values(d: string): Words {
    var ws := WordsOf(d);
    if ws == [] then [] else ws[1..]
  }

  predicate IsScript(d: string) {
    Name(d) == SCRIPT || Name(d) == SCRIPT_ELEM
  }

  function AllowOrigin(tokens: Words, origin: string): Words {
    if |tokens| == 1 && Lower(tokens[0]) == "'none'" then [origin]
    else if origin in tokens then tokens
    else tokens + [origin]
  }

  function NonceIn(token: string): Option<string> {
    if |token| >= 8 && Lower(token)[..7] == "'nonce-" && token[|token| - 1] == '\'' then
      var candidate := token[7..|token| - 1];
      if candidate != "" && IsNonce(candidate) then Some(candidate) else None
    else None
  }

  predicate IsNonce(s: string) {
    forall i :: 0 <= i < |s| ==>
      || 'a' <= s[i] <= 'z' || 'A' <= s[i] <= 'Z' || '0' <= s[i] <= '9' || s[i] in {'+', '/', '_', '=', '-'}
  }

  function FindNonce(tokens: Words): Option<string> {
    if tokens == [] then None
    else if NonceIn(tokens[0]).Some? then NonceIn(tokens[0])
    else FindNonce(tokens[1..])
  }

  function OrElse(a: Option<string>, b: Option<string>): Option<string> {
    if a.Some? then a else b
  }

  // ----- one policy: the list of its directives -----

  function Kept(d: string, origin: string): seq<string> {
    if Name(d) == ANCESTORS then []
    else if IsScript(d) then [Widened(d, origin)]
    else [d]
  }

  /** A script directive with the origin allowed, under the name it was written with. */
  function Widened(d: string, origin: string): string {
    var ws := WordsOf(d);
    if ws == [] then d else Join([ws[0]] + AllowOrigin(ws[1..], origin), " ")
  }

  function KeptAll(ds: seq<string>, origin: string): seq<string> {
    if ds == [] then [] else Kept(ds[0], origin) + KeptAll(ds[1..], origin)
  }

  predicate ScriptSeen(ds: seq<string>) {
    ds != [] && (IsScript(ds[0]) || ScriptSeen(ds[1..]))
  }

  /** The tokens of the last default-src. */
  function LastDefault(ds: seq<string>): Option<Words> {
    if ds == [] then None
    else if LastDefault(ds[1..]).Some? then LastDefault(ds[1..])
    else if Name(ds[0]) == DEFAULT then Some(Values(ds[0]))
    else None
  }

  function Nonce(ds: seq<string>): Option<string> {
    if ds == [] then None
    else if IsScript(ds[0]) || Name(ds[0]) == DEFAULT then OrElse(FindNonce(Values(ds[0])), Nonce(ds[1..]))
    else Nonce(ds[1..])
  }

  function Rewritten(ds: seq<string>, origin: string): seq<string> {
    KeptAll(ds, origin) + AddedElem(ds, origin)
  }

  /** Without a script directive of its own, a policy gets one copied from default-src. */
  function AddedElem(ds: seq<string>, origin: string): seq<string> {
    if LastDefault(ds).Some? && !ScriptSeen(ds)
    then [Join([SCRIPT_ELEM] + AllowOrigin(LastDefault(ds).value, origin), " ")]
    else []
  }

  // ----- a header value: comma-separated policies of semicolon-separated directives -----

  function StrippedNonEmpty(parts: seq<string>): seq<string> {
    if parts == [] then []
    else
      var d := Strip(parts[0], SPACES);
      (if d == "" then [] else [d]) + StrippedNonEmpty(parts[1..])
  }

  function Directives(policy: string): seq<string> {
    StrippedNonEmpty(Split(policy, ";"))
  }

  function Policies(parts: seq<string>): seq<seq<string>> {
    if parts == [] then [] else [Directives(parts[0])] + Policies(parts[1..])
  }

  function PoliciesOf(value: string): seq<seq<string>> {
    Policies(Split(value, ","))
  }

  /** The rewritten policies, those with nothing left dropped. */
  function RewrittenAll(ps: seq<seq<string>>, origin: string): seq<seq<string>> {
    if ps == [] then []
    else
      var out := Rewritten(ps[0], origin);
      (if out == [] then [] else [out]) + RewrittenAll(ps[1..], origin)
  }

  function NonceAll(ps: seq<seq<string>>): Option<string> {
    if ps == [] then None else OrElse(Nonce(ps[0]), NonceAll(ps[1..]))
  }

  function Printed(ps: seq<seq<string>>): seq<string> {
    if ps == [] then [] else [Join(ps[0], "; ")] + Printed(ps[1..])
  }

  /** rewrite_csp, as a function of the header value. */
  function RewriteCsp(value: string, origin: string): (Option<string>, Option<string>) {
    var ps := PoliciesOf(value);
    var out := RewrittenAll(ps, origin);
    (if out == [] then None else Some(Join(Printed(out), ", ")), NonceAll(ps))
  }

  // ----- rewriting twice is rewriting once -----

  lemma AllowTwice(tokens: Words, origin: string)
    requires OriginOk(origin)
    ensures AllowOrigin(AllowOrigin(tokens, origin), origin) == AllowOrigin(tokens, origin)
    ensures origin in AllowOrigin(tokens, origin)
    ensures FindNonce(AllowOrigin(tokens, origin)) == FindNonce(tokens)
  {
    assert Lower(origin)[0] == LowerChar(origin[0]) != '\'';
    var out := AllowOrigin(tokens, origin);
    if |tokens| == 1 && Lower(tokens[0]) == "'none'" {
      assert NonceIn(tokens[0]) == None by { assert |tokens[0]| == 6; }
      assert tokens[1..] == [] && [origin][1..] == [];
      OriginIsNoNonce(origin);
    } else if origin !in tokens {
      OriginIsNoNonce(origin);
      NonceAppend(tokens, origin);
      assert out[|tokens|] == origin;
    } else if |tokens| == 1 {
      assert tokens[0] == origin;
    }
  }

  lemma OriginIsNoNonce(origin: string)
    requires OriginOk(origin)
    ensures NonceIn(origin) == None
  {
    if |origin| >= 8 { assert Lower(origin)[..7][0] == LowerChar(origin[0]); }
  }

  lemma {:induction false} NonceAppend(tokens: Words, origin: string)
    requires NonceIn(origin) == None
    ensures FindNonce(tokens + [origin]) == FindNonce(tokens)
  {
    if tokens != [] {
      assert (tokens + [origin])[1..] == tokens[1..] + [origin];
      NonceAppend(tokens[1..], origin);
    }
  }

  /** The nonce found is that of the first token that carries one. */
  lemma {:induction false} NonceIsFirst(tokens: Words)
    ensures FindNonce(tokens).None? <==> forall j :: 0 <= j < |tokens| ==> NonceIn(tokens[j]).None?
    ensures FindNonce(tokens).Some? ==> exists k :: 0 <= k < |tokens| && CarriesFirst(tokens, k)
                                                   && NonceIn(tokens[k]) == FindNonce(tokens)
  {
    if tokens != [] {
      var rest := tokens[1..];
      NonceIsFirst(rest);
      if NonceIn(tokens[0]).Some? {
        assert CarriesFirst(tokens, 0);
      } else if FindNonce(rest).Some? {
        var k :| 0 <= k < |rest| && CarriesFirst(rest, k) && NonceIn(rest[k]) == FindNonce(rest);
        forall j | 0 <= j < k + 1 ensures NonceIn(tokens[j]).None? { assert j > 0 ==> tokens[j] == rest[j - 1]; }
        assert CarriesFirst(tokens, k + 1);
      } else {
        forall j | 0 <= j < |tokens| ensures NonceIn(tokens[j]).None? { assert j > 0 ==> tokens[j] == rest[j - 1]; }
      }
    }
  }

  predicate CarriesFirst(tokens: Words, k: nat) {
    k < |tokens| && NonceIn(tokens[k]).Some? && forall j :: 0 <= j < k ==> NonceIn(tokens[j]).None?
  }

  /** The tokens of the directives that govern scripts, policy after policy. */
  function Governing(ds: seq<string>): Words {
    if ds == [] then []
    else (if IsScript(ds[0]) || Name(ds[0]) == DEFAULT then Values(ds[0]) else []) + Governing(ds[1..])
  }

  function AllGoverning(ps: seq<seq<string>>): Words {
    if ps == [] then [] else Governing(ps[0]) + AllGoverning(ps[1..])
  }

  lemma {:induction false} NonceConcat(a: Words, b: Words)
    ensures FindNonce(a + b) == OrElse(FindNonce(a), FindNonce(b))
  {
    if a == [] {
      assert a + b == b;
    } else {
      assert (a + b)[1..] == a[1..] + b;
      NonceConcat(a[1..], b);
    }
  }

  lemma {:induction false} NonceIsGoverning(ds: seq<string>)
    ensures Nonce(ds) == FindNonce(Governing(ds))
  {
    if ds != [] {
      NonceIsGoverning(ds[1..]);
      NonceConcat(if IsScript(ds[0]) || Name(ds[0]) == DEFAULT then Values(ds[0]) else [], Governing(ds[1..]));
    }
  }

  /** The nonce returned is the first one among all tokens that govern scripts. */
  lemma {:induction false} NonceAllIsGoverning(ps: seq<seq<string>>)
    ensures NonceAll(ps) == FindNonce(AllGoverning(ps))
  {
    if ps != [] {
      NonceIsGoverning(ps[0]);
      NonceAllIsGoverning(ps[1..]);
      NonceConcat(Governing(ps[0]), AllGoverning(ps[1..]));
    }
  }

  // ----- words and directives -----

  /** A non-empty run of characters without white space. */
  predicate Solid(w: string) {
    w != "" && forall i :: 0 <= i < |w| ==> w[i] !in SPACES
  }

  predicate AllSolid(ws: Words) {
    forall i :: 0 <= i < |ws| ==> Solid(ws[i])
  }

  /** A directive as the parser leaves it: trimmed, non-empty, free of separators. */
  predicate IsDirective(d: string) {
    d != "" && Stripped(d, SPACES) && Lacks(d, ';') && Lacks(d, ',')
  }

  predicate AllDirectives(ds: seq<string>) {
    forall i :: 0 <= i < |ds| ==> IsDirective(ds[i])
  }

  lemma {:induction false} WordsAreSolid(s: string)
    ensures AllSolid(WordsOf(s))
    ensures forall c, k :: 0 <= k < |WordsOf(s)| && Lacks(s, c) ==> Lacks(WordsOf(s)[k], c)
    decreases |s|
  {
    LStripShape(s, SPACES);
    var t := LStrip(s, SPACES);
    if t != "" {
      WordLengthIs(t);
      var n := WordLength(t);
      if n > 0 {
        WordsAreSolid(t[n..]);
        forall c, k | 0 <= k < |WordsOf(s)| && Lacks(s, c) ensures Lacks(WordsOf(s)[k], c) {
          var from := |s| - |t|;
          forall i | 0 <= i < |t| ensures t[i] != c { assert t[i] == s[from + i]; }
          if k > 0 {
            assert Lacks(t[n..], c);
            assert WordsOf(s)[k] == WordsOf(t[n..])[k - 1];
          }
        }
      }
    }
  }

  lemma {:induction false} WordLengthOf(w: string, rest: string)
    requires Solid(w) && (rest == "" || rest[0] in SPACES)
    ensures WordLength(w + rest) == |w|
  {
    if |w| == 1 {
      assert (w + rest)[1..] == rest;
    } else {
      assert (w + rest)[1..] == w[1..] + rest;
      WordLengthOf(w[1..], rest);
    }
  }

  /** split() undoes " ".join on words. */
  lemma {:induction false} WordsOfJoin(ws: Words)
    requires AllSolid(ws)
    ensures WordsOf(Join(ws, " ")) == ws
  {
    if |ws| == 1 {
      assert ws[0] + "" == ws[0];
      WordLengthOf(ws[0], "");
      assert WordsOf("") == [];
    } else if |ws| > 1 {
      var rest := Join(ws[1..], " ");
      var s := Join(ws, " ");
      assert s == ws[0] + (" " + rest);
      WordLengthOf(ws[0], " " + rest);
      assert LStrip(s, SPACES) == s;
      assert s[..|ws[0]|] == ws[0] && s[|ws[0]|..] == " " + rest;
      LStripBlank(" ", rest, SPACES);
      WordsOfJoin(ws[1..]);
      assert WordsOf(" " + rest) == WordsOf(rest);
    }
  }

  lemma {:induction false} JoinIsDirective(ws: Words)
    requires ws != [] && forall i :: 0 <= i < |ws| ==> IsWord(ws[i])
    ensures IsDirective(Join(ws, " "))
  {
    if |ws| > 1 {
      JoinIsDirective(ws[1..]);
      var rest := Join(ws[1..], " ");
      var s := ws[0] + " " + rest;
      forall i | 0 <= i < |s| ensures s[i] != ';' && s[i] != ',' {
        if i > |ws[0]| { assert s[i] == rest[i - |ws[0]| - 1]; }
      }
      assert s[|s| - 1] == rest[|rest| - 1];
    }
  }

  lemma DirectiveHasName(d: string)
    requires IsDirective(d)
    ensures WordsOf(d) != [] && forall k :: 0 <= k < |WordsOf(d)| ==> IsWord(WordsOf(d)[k])
  {
    assert LStrip(d, SPACES) == d;
    WordLengthIs(d);
    WordsAreSolid(d);
    forall k | 0 <= k < |WordsOf(d)| ensures IsWord(WordsOf(d)[k]) {
      assert Lacks(WordsOf(d)[k], ';') && Lacks(WordsOf(d)[k], ',') && Solid(WordsOf(d)[k]);
    }
  }

  /** A directive printed from words reads back as those words. */
  lemma SpelledOut(ws: Words)
    requires ws != [] && forall i :: 0 <= i < |ws| ==> IsWord(ws[i])
    ensures IsDirective(Join(ws, " ")) && WordsOf(Join(ws, " ")) == ws
  {
    forall i | 0 <= i < |ws| ensures Solid(ws[i]) {
      assert IsWord(ws[i]);
    }
    WordsOfJoin(ws);
    JoinIsDirective(ws);
  }

  lemma Prefixed(name: string, tokens: Words, origin: string)
    requires IsWord(name) && OriginOk(origin)
    requires forall i :: 0 <= i < |tokens| ==> IsWord(tokens[i])
    ensures var d := Join([name] + AllowOrigin(tokens, origin), " ");
      && IsDirective(d) && Name(d) == Lower(name) && Values(d) == AllowOrigin(tokens, origin)
      && Widened(d, origin) == d
  {
    var out := [name] + AllowOrigin(tokens, origin);
    AllowTwice(tokens, origin);
    SpelledOut(out);
    assert out[1..] == AllowOrigin(tokens, origin);
  }

  /** What a widened script directive says. */
  lemma WidenedSays(d: string, origin: string)
    requires IsDirective(d) && OriginOk(origin)
    ensures IsDirective(Widened(d, origin)) && Name(Widened(d, origin)) == Name(d)
    ensures Values(Widened(d, origin)) == AllowOrigin(Values(d), origin)
    ensures Widened(Widened(d, origin), origin) == Widened(d, origin)
  {
    DirectiveHasName(d);
    Prefixed(WordsOf(d)[0], WordsOf(d)[1..], origin);
  }

  lemma ElemIsLower()
    ensures Lower(SCRIPT_ELEM) == SCRIPT_ELEM
  {
  }

  lemma ElemIsWord()
    ensures IsWord(SCRIPT_ELEM) && Lower(SCRIPT_ELEM) == SCRIPT_ELEM
  {
    ElemIsLower();
  }

  lemma AddedSays(ds: seq<string>, origin: string)
    requires AllDirectives(ds) && OriginOk(origin)
    requires LastDefault(ds).Some?
    ensures var d := Join([SCRIPT_ELEM] + AllowOrigin(LastDefault(ds).value, origin), " ");
            && IsDirective(d) && Name(d) == SCRIPT_ELEM
            && Values(d) == AllowOrigin(LastDefault(ds).value, origin) && Widened(d, origin) == d
  {
    LastDefaultWords(ds);
    ElemIsWord();
    Prefixed(SCRIPT_ELEM, LastDefault(ds).value, origin);
  }

  lemma {:induction false} LastDefaultWords(ds: seq<string>)
    requires AllDirectives(ds) && LastDefault(ds).Some?
    ensures forall k :: 0 <= k < |LastDefault(ds).value| ==> IsWord(LastDefault(ds).value[k])
  {
    if LastDefault(ds[1..]).Some? {
      LastDefaultWords(ds[1..]);
    } else {
      DirectiveHasName(ds[0]);
    }
  }

  // ----- the list of directives -----

  lemma {:induction false} KeptAllSays(ds: seq<string>, origin: string)
    requires AllDirectives(ds) && OriginOk(origin)
    ensures var out := KeptAll(ds, origin);
      && AllDirectives(out) && KeptAll(out, origin) == out
      && ScriptSeen(out) == ScriptSeen(ds) && LastDefault(out) == LastDefault(ds) && Nonce(out) == Nonce(ds)
  {
    if ds != [] {
      var d, rest := ds[0], KeptAll(ds[1..], origin);
      KeptAllSays(ds[1..], origin);
      if Name(d) == ANCESTORS {
        assert KeptAll(ds, origin) == rest;
      } else if IsScript(d) {
        WidenedSays(d, origin);
        AllowTwice(Values(d), origin);
        var d' := Widened(d, origin);
        assert KeptAll(ds, origin) == [d'] + rest && ([d'] + rest)[1..] == rest;
      } else {
        assert KeptAll(ds, origin) == [d] + rest && ([d] + rest)[1..] == rest;
      }
    }
  }

  lemma {:induction false} KeptAtTheEnd(ds: seq<string>, d: string, origin: string)
    ensures KeptAll(ds + [d], origin) == KeptAll(ds, origin) + Kept(d, origin)
  {
    if ds == [] {
      assert ds + [d] == [d] && [d][1..] == [];
    } else {
      assert (ds + [d])[1..] == ds[1..] + [d];
      KeptAtTheEnd(ds[1..], d, origin);
      Assoc(Kept(ds[0], origin), KeptAll(ds[1..], origin), Kept(d, origin));
    }
  }

  lemma {:induction false} AtTheEnd(ds: seq<string>, d: string, origin: string)
    ensures KeptAll(ds + [d], origin) == KeptAll(ds, origin) + Kept(d, origin)
    ensures ScriptSeen(ds + [d]) == (ScriptSeen(ds) || IsScript(d))
    ensures IsScript(d) ==> Nonce(ds + [d]) == OrElse(Nonce(ds), FindNonce(Values(d)))
    ensures IsScript(d) ==> LastDefault(ds + [d]) == LastDefault(ds)
  {
    KeptAtTheEnd(ds, d, origin);
    SeenAtTheEnd(ds, d);
  }

  lemma {:induction false} SeenAtTheEnd(ds: seq<string>, d: string)
    ensures ScriptSeen(ds + [d]) == (ScriptSeen(ds) || IsScript(d))
    ensures IsScript(d) ==> Nonce(ds + [d]) == OrElse(Nonce(ds), FindNonce(Values(d)))
    ensures IsScript(d) ==> LastDefault(ds + [d]) == LastDefault(ds)
  {
    NamesDiffer(d);
    if ds == [] {
      assert ds + [d] == [d] && [d][1..] == [];
    } else {
      assert (ds + [d])[1..] == ds[1..] + [d];
      SeenAtTheEnd(ds[1..], d);
    }
  }

  lemma {:induction false} DefaultNonceFirst(ds: seq<string>)
    requires LastDefault(ds).Some? && FindNonce(LastDefault(ds).value).Some?
    ensures Nonce(ds).Some?
  {
    if LastDefault(ds[1..]).Some? { DefaultNonceFirst(ds[1..]); }
  }

  /** A second rewrite changes nothing and finds the same nonce. */
  lemma RewrittenTwice(ds: seq<string>, origin: string)
    requires AllDirectives(ds) && OriginOk(origin)
    ensures AllDirectives(Rewritten(ds, origin))
    ensures Rewritten(Rewritten(ds, origin), origin) == Rewritten(ds, origin)
    ensures Nonce(Rewritten(ds, origin)) == Nonce(ds)
  {
    var kept := KeptAll(ds, origin);
    KeptAllSays(ds, origin);
    if AddedElem(ds, origin) != [] {
      AddedTwice(ds, origin);
    } else {
      assert kept + [] == kept;
    }
  }

  /** A policy that ends in a script directive of its own gets no other. */
  lemma ElemAgain(kept: seq<string>, d: string, origin: string)
    requires KeptAll(kept, origin) == kept && IsScript(d) && Kept(d, origin) == [d]
    ensures Rewritten(kept + [d], origin) == kept + [d]
    ensures Nonce(kept + [d]) == OrElse(Nonce(kept), FindNonce(Values(d)))
  {
    AtTheEnd(kept, d, origin);
    assert kept + [d] + [] == kept + [d];
  }

  lemma AddedTwice(ds: seq<string>, origin: string)
    requires AllDirectives(ds) && OriginOk(origin) && AddedElem(ds, origin) != []
    ensures AllDirectives(Rewritten(ds, origin))
    ensures Rewritten(Rewritten(ds, origin), origin) == Rewritten(ds, origin)
    ensures Nonce(Rewritten(ds, origin)) == Nonce(ds)
  {
    var kept, d := KeptAll(ds, origin), AddedElem(ds, origin)[0];
    KeptAllSays(ds, origin);
    AddedIsElem(ds, origin);
    ElemAgain(kept, d, origin);
    AddedNonce(ds, origin);
  }

  lemma AddedNonce(ds: seq<string>, origin: string)
    requires OriginOk(origin) && LastDefault(ds).Some?
    ensures OrElse(Nonce(ds), FindNonce(AllowOrigin(LastDefault(ds).value, origin))) == Nonce(ds)
  {
    AllowTwice(LastDefault(ds).value, origin);
    if FindNonce(LastDefault(ds).value).Some? { DefaultNonceFirst(ds); }
  }

  lemma AddedIsElem(ds: seq<string>, origin: string)
    requires AllDirectives(ds) && OriginOk(origin) && AddedElem(ds, origin) != []
    ensures var d := AddedElem(ds, origin)[0];
            && AddedElem(ds, origin) == [d] && IsDirective(d)
            && IsScript(d) && Name(d) == SCRIPT_ELEM && Kept(d, origin) == [d]
            && Values(d) == AllowOrigin(LastDefault(ds).value, origin)
  {
    AddedSays(ds, origin);
    assert SCRIPT_ELEM != ANCESTORS;
  }

  // ----- what the policy means -----

  function FirstNamed(ds: seq<string>, name: string): Option<Words> {
    if ds == [] then None
    else if Name(ds[0]) == name then Some(Values(ds[0]))
    else FirstNamed(ds[1..], name)
  }

  /** The source list in force for script elements (section 6.8.3 of CSP Level 3): of each
      name the first directive counts, and script-src-elem falls back on script-src, then
      on default-src. */
  function InForce(ds: seq<string>): Option<Words> {
    if FirstNamed(ds, SCRIPT_ELEM).Some? then FirstNamed(ds, SCRIPT_ELEM)
    else if FirstNamed(ds, SCRIPT).Some? then FirstNamed(ds, SCRIPT)
    else FirstNamed(ds, DEFAULT)
  }

  /** The directives that have nothing to do with scripts or framing, as written. */
  function Others(ds: seq<string>): seq<string> {
    if ds == [] then []
    else (if IsScript(ds[0]) || Name(ds[0]) == ANCESTORS then [] else [ds[0]]) + Others(ds[1..])
  }

  lemma {:induction false} KeptAllNamed(ds: seq<string>, origin: string, name: string)
    requires AllDirectives(ds) && OriginOk(origin)
    ensures FirstNamed(KeptAll(ds, origin), name)
         == if name == ANCESTORS then None
            else if name == SCRIPT || name == SCRIPT_ELEM then Allowed(FirstNamed(ds, name), origin)
            else FirstNamed(ds, name)
  {
    if ds != [] {
      var d, rest := ds[0], KeptAll(ds[1..], origin);
      KeptAllNamed(ds[1..], origin, name);
      if Name(d) == ANCESTORS {
        assert KeptAll(ds, origin) == rest;
      } else {
        if IsScript(d) { WidenedSays(d, origin); }
        var d' := Kept(d, origin)[0];
        assert KeptAll(ds, origin) == [d'] + rest && ([d'] + rest)[1..] == rest;
      }
    }
  }

  lemma {:induction false} KeptAllOthers(ds: seq<string>, origin: string)
    requires AllDirectives(ds) && OriginOk(origin)
    ensures Others(KeptAll(ds, origin)) == Others(ds)
  {
    if ds != [] {
      var d, rest := ds[0], KeptAll(ds[1..], origin);
      KeptAllOthers(ds[1..], origin);
      if Name(d) == ANCESTORS {
        assert KeptAll(ds, origin) == rest;
      } else {
        if IsScript(d) { WidenedSays(d, origin); }
        var d' := Kept(d, origin)[0];
        assert KeptAll(ds, origin) == [d'] + rest;
        Rest(d', rest);
      }
    }
  }

  lemma {:induction false} SeenIsNamed(ds: seq<string>)
    ensures ScriptSeen(ds) <==> FirstNamed(ds, SCRIPT).Some? || FirstNamed(ds, SCRIPT_ELEM).Some?
    ensures LastDefault(ds).Some? <==> FirstNamed(ds, DEFAULT).Some?
  {
    if ds != [] { SeenIsNamed(ds[1..]); }
  }

  lemma KeptAllMeans(ds: seq<string>, origin: string)
    requires AllDirectives(ds) && OriginOk(origin)
    ensures var out := KeptAll(ds, origin);
      && Others(out) == Others(ds) && FirstNamed(out, ANCESTORS) == None
      && FirstNamed(out, DEFAULT) == FirstNamed(ds, DEFAULT)
      && FirstNamed(out, SCRIPT) == Allowed(FirstNamed(ds, SCRIPT), origin)
      && FirstNamed(out, SCRIPT_ELEM) == Allowed(FirstNamed(ds, SCRIPT_ELEM), origin)
    ensures ScriptSeen(ds) <==> FirstNamed(ds, SCRIPT).Some? || FirstNamed(ds, SCRIPT_ELEM).Some?
    ensures LastDefault(ds).Some? <==> FirstNamed(ds, DEFAULT).Some?
  {
    KeptAllOthers(ds, origin);
    SeenIsNamed(ds);
    KeptAllNamed(ds, origin, ANCESTORS);
    KeptAllNamed(ds, origin, DEFAULT);
    KeptAllNamed(ds, origin, SCRIPT);
    KeptAllNamed(ds, origin, SCRIPT_ELEM);
  }

  function Allowed(list: Option<Words>, origin: string): Option<Words> {
    match list case None => None case Some(ws) => Some(AllowOrigin(ws, origin))
  }

  lemma {:induction false} MeansAtTheEnd(ds: seq<string>, d: string, name: string)
    requires IsScript(d)
    ensures Others(ds + [d]) == Others(ds)
    ensures FirstNamed(ds + [d], name)
         == if FirstNamed(ds, name).Some? then FirstNamed(ds, name)
            else if Name(d) == name then Some(Values(d)) else None
  {
    if ds == [] {
      assert [d][1..] == [];
      assert [] + [d] == [d];
    } else {
      assert (ds + [d])[1..] == ds[1..] + [d];
      MeansAtTheEnd(ds[1..], d, name);
    }
  }

  /** The list in force after the rewrite, in terms of the policy before it. */
  lemma InForceAfter(ds: seq<string>, origin: string)
    requires AllDirectives(ds) && OriginOk(origin)
    ensures Others(Rewritten(ds, origin)) == Others(ds)
    ensures FirstNamed(Rewritten(ds, origin), ANCESTORS) == None
    ensures InForce(Rewritten(ds, origin))
         == Allowed(if ScriptSeen(ds) then InForce(ds) else LastDefault(ds), origin)
  {
    var kept := KeptAll(ds, origin);
    KeptAllMeans(ds, origin);
    if LastDefault(ds).Some? && !ScriptSeen(ds) {
      var d := AddedElem(ds, origin)[0];
      AddedIsElem(ds, origin);
      assert Rewritten(ds, origin) == kept + [d];
      MeansAtTheEnd(kept, d, ANCESTORS);
      MeansAtTheEnd(kept, d, SCRIPT_ELEM);
    } else {
      assert Rewritten(ds, origin) == kept;
    }
  }

  /** Nothing but scripts and framing is touched, framing is no longer restricted, and scripts
      from the origin are allowed wherever scripts were restricted. */
  lemma RewriteAllowsOrigin(ds: seq<string>, origin: string)
    requires AllDirectives(ds) && OriginOk(origin)
    ensures Others(Rewritten(ds, origin)) == Others(ds)
    ensures FirstNamed(Rewritten(ds, origin), ANCESTORS) == None
    ensures InForce(Rewritten(ds, origin)).Some? <==> InForce(ds).Some?
    ensures InForce(ds).Some? ==> origin in InForce(Rewritten(ds, origin)).value
  {
    InForceAfter(ds, origin);
    KeptAllMeans(ds, origin);
    var list := if ScriptSeen(ds) then InForce(ds) else LastDefault(ds);
    if list.Some? { AllowTwice(list.value, origin); }
  }

  /** What a source list allows beside the origin: 'none' alone allows nothing, and an origin
      that stands last and nowhere else is left off. */
  function Sources(ws: Words, origin: string): Words {
    if |ws| == 1 && Lower(ws[0]) == "'none'" then []
    else if ws != [] && ws[|ws| - 1] == origin && origin !in ws[..|ws| - 1] then ws[..|ws| - 1]
    else ws
  }

  predicate SameSources(a: Option<Words>, b: Option<Words>, origin: string) {
    (a.Some? <==> b.Some?) && (a.Some? && b.Some? ==> Sources(a.value, origin) == Sources(b.value, origin))
  }

  lemma AllowBySources(ws: Words, origin: string)
    requires OriginOk(origin)
    ensures var s := Sources(ws, origin); AllowOrigin(ws, origin) == if origin in s then s else s + [origin]
    ensures origin in Sources(ws, origin) ==> Sources(ws, origin) == ws
  {
    assert Lower(origin)[0] == LowerChar(origin[0]) != '\'';
    if ws != [] { InitLast(ws); }
    if |ws| == 1 { assert ws[..0] == []; }
  }

  /** Two lists come to the same exactly if they allow the same sources beside the origin. */
  lemma SameAllowed(a: Words, b: Words, origin: string)
    requires OriginOk(origin)
    ensures AllowOrigin(a, origin) == AllowOrigin(b, origin) <==> Sources(a, origin) == Sources(b, origin)
  {
    AllowBySources(a, origin);
    AllowBySources(b, origin);
    SourcesApart(a, Sources(b, origin), origin);
    SourcesApart(b, Sources(a, origin), origin);
    AppendedSame(Sources(a, origin), Sources(b, origin), origin);
  }

  lemma SourcesApart(a: Words, s: Words, origin: string)
    ensures origin in Sources(a, origin) && origin !in s ==> Sources(a, origin) != s + [origin]
  {
    assert (s + [origin])[..|s|] == s;
  }

  lemma AppendedSame(x: Words, y: Words, origin: string)
    ensures x + [origin] == y + [origin] ==> x == y
  {
    assert (x + [origin])[..|x|] == x && (y + [origin])[..|y|] == y;
  }

  /** It adds the origin and nothing else, unless the policy has default-src twice and the last
      one, which is copied, allows other sources than the first one, which is in force. */
  lemma RewriteAddsOnlyOrigin(ds: seq<string>, origin: string)
    requires AllDirectives(ds) && OriginOk(origin)
    ensures InForce(Rewritten(ds, origin)) == Allowed(InForce(ds), origin)
       <==> ScriptSeen(ds) || SameSources(LastDefault(ds), FirstNamed(ds, DEFAULT), origin)
  {
    InForceAfter(ds, origin);
    KeptAllMeans(ds, origin);
    var last, first := LastDefault(ds), FirstNamed(ds, DEFAULT);
    if last.Some? && first.Some? { SameAllowed(last.value, first.value, origin); }
  }

  lemma DefaultIsWord()
    ensures IsWord(DEFAULT)
  {
  }

  lemma DefaultIsLower()
    ensures Lower(DEFAULT) == DEFAULT
  {
  }

  /** A policy of one word list under default-src. */
  lemma OneDefault(word: string)
    requires IsWord(word)
    ensures var d := Join([DEFAULT, word], " ");
      && IsDirective(d) && Name(d) == DEFAULT && Values(d) == [word] && !IsScript(d)
  {
    DefaultIsWord();
    DefaultIsLower();
    SpelledOut([DEFAULT, word]);
    assert [DEFAULT, word][1..] == [word];
    assert |DEFAULT| == 11 && |SCRIPT| == 10 && |SCRIPT_ELEM| == 15;
  }

  lemma AllowOne(word: string, origin: string)
    requires Lower(word) != "'none'" && word != origin
    ensures AllowOrigin([word], origin) == [word, origin]
  {
    assert [word] + [origin] == [word, origin];
  }

  /** Two default-src directives: the first one is in force, and the last one gets allowed. */
  lemma TwoDefaultsWiden(x: string, y: string, origin: string)
    requires OriginOk(origin) && IsWord(x) && IsWord(y) && Lower(y) != "'none'" && y != origin
    ensures var ds := [Join([DEFAULT, x], " "), Join([DEFAULT, y], " ")];
            && AllDirectives(ds) && InForce(ds) == Some([x]) && InForce(Rewritten(ds, origin)) == Some([y, origin])
  {
    OneDefault(x);
    OneDefault(y);
    TwoDefaults(Join([DEFAULT, x], " "), Join([DEFAULT, y], " "), origin);
    AllowOne(y, origin);
  }

  lemma SelfAndStarAreWords()
    ensures IsWord("'self'") && IsWord("*") && Lower("*") != "'none'"
  {
  }

  lemma LastOfTwo(a: string, b: string)
    requires Name(a) == DEFAULT && Name(b) == DEFAULT && !IsScript(a) && !IsScript(b)
    ensures LastDefault([a, b]) == Some(Values(b)) && !ScriptSeen([a, b])
  {
    assert [a, b][1..] == [b] && [b][1..] == [];
    assert LastDefault([b][1..]) == None;
    assert LastDefault([b]) == Some(Values(b));
    assert !ScriptSeen([b]);
  }

  lemma NotNamed(a: string, b: string, name: string)
    requires Name(a) != name && Name(b) != name
    ensures FirstNamed([a, b], name) == None
  {
    assert [a, b][1..] == [b] && [b][1..] == [];
    assert FirstNamed([b], name) == FirstNamed([b][1..], name) == None;
  }

  lemma TwoDefaults(a: string, b: string, origin: string)
    requires OriginOk(origin) && IsDirective(a) && IsDirective(b)
    requires Name(a) == DEFAULT && Name(b) == DEFAULT && !IsScript(a) && !IsScript(b)
    ensures InForce([a, b]) == Some(Values(a))
    ensures InForce(Rewritten([a, b], origin)) == Some(AllowOrigin(Values(b), origin))
  {
    NotNamed(a, b, SCRIPT);
    NotNamed(a, b, SCRIPT_ELEM);
    LastOfTwo(a, b);
    InForceAfter([a, b], origin);
  }

  // ----- header values -----

  /** Policies as the printer needs them: each with a directive, no separator inside one. */
  predicate Printable(ps: seq<seq<string>>) {
    forall i :: 0 <= i < |ps| ==> ps[i] != [] && AllDirectives(ps[i])
  }

  predicate AllPolicies(ps: seq<seq<string>>) {
    forall i :: 0 <= i < |ps| ==> AllDirectives(ps[i])
  }

  lemma {:induction false} StrippedPartsAreDirectives(parts: seq<string>)
    requires forall k :: 0 <= k < |parts| ==> Lacks(parts[k], ';') && Lacks(parts[k], ',')
    ensures AllDirectives(StrippedNonEmpty(parts))
  {
    if parts != [] {
      var k := StripShape(parts[0], SPACES);
      StrippedPartsAreDirectives(parts[1..]);
    }
  }

  lemma DirectivesAreDirectives(policy: string)
    requires Lacks(policy, ',')
    ensures AllDirectives(Directives(policy))
  {
    var parts := Split(policy, ";");
    forall k | 0 <= k < |parts| ensures Lacks(parts[k], ';') && Lacks(parts[k], ',') {
      SplitLacks(policy, ';', k);
      SplitKeepsLack(policy, ";", ',', k);
    }
    StrippedPartsAreDirectives(parts);
  }

  lemma {:induction false} PoliciesAreDirectives(parts: seq<string>)
    requires forall k :: 0 <= k < |parts| ==> Lacks(parts[k], ',')
    ensures AllPolicies(Policies(parts))
  {
    if parts != [] {
      DirectivesAreDirectives(parts[0]);
      PoliciesAreDirectives(parts[1..]);
    }
  }

  lemma PoliciesOfAreDirectives(value: string)
    ensures AllPolicies(PoliciesOf(value))
  {
    var parts := Split(value, ",");
    forall k | 0 <= k < |parts| ensures Lacks(parts[k], ',') {
      SplitLacks(value, ',', k);
    }
    PoliciesAreDirectives(parts);
  }

  predicate IsPad(pad: string) {
    pad == "" || pad == " "
  }

  lemma PadLacks(pad: string, s: string, c: char)
    requires IsPad(pad) && Lacks(s, c) && c != ' '
    ensures Lacks(pad + s, c)
  {
  }

  lemma PaddedStrips(pad: string, d: string)
    requires IsPad(pad) && Stripped(d, SPACES)
    ensures Strip(pad + d, SPACES) == d
  {
    assert pad + d == pad + d + "";
    StripPadded(pad, d, "", SPACES);
  }

  lemma DirectivesOne(p: string)
    requires Lacks(p, ';') && Strip(p, SPACES) != ""
    ensures Directives(p) == [Strip(p, SPACES)]
  {
    LacksCuts(p, ';');
    FindNone(p, ";");
    assert Split(p, ";") == [p] && [p][1..] == [];
    assert StrippedNonEmpty([p]) == [Strip(p, SPACES)] + StrippedNonEmpty([]);
  }

  lemma DirectivesCons(p: string, rest: string)
    requires Lacks(p, ';') && Strip(p, SPACES) != ""
    ensures Directives(p + ";" + rest) == [Strip(p, SPACES)] + Directives(rest)
  {
    LacksCuts(p, ';');
    SplitAfter(p, ";", rest);
    assert ([p] + Split(rest, ";"))[1..] == Split(rest, ";");
  }

  /** Printed directives read back, also behind the space the printer puts after a separator. */
  lemma {:induction false} DirectivesReadBack(pad: string, ds: seq<string>)
    requires IsPad(pad) && ds != [] && AllDirectives(ds)
    ensures Directives(pad + Join(ds, "; ")) == ds
    decreases |ds|
  {
    DirectiveInFront(pad, ds[0], if |ds| == 1 then "" else Join(ds[1..], "; "));
    if |ds| > 1 {
      DirectivesReadBack(" ", ds[1..]);
      assert ds == [ds[0]] + ds[1..];
    }
  }

  lemma DirectiveInFront(pad: string, d: string, rest: string)
    requires IsPad(pad) && IsDirective(d)
    ensures Directives(pad + d) == [d]
    ensures Directives(pad + (d + "; " + rest)) == [d] + Directives(" " + rest)
  {
    PadLacks(pad, d, ';');
    PaddedStrips(pad, d);
    DirectivesOne(pad + d);
    DirectivesCons(pad + d, " " + rest);
    Separated(pad, d, ";", rest);
    assert ";" + " " == "; ";
  }

  lemma Separated(pad: string, first: string, sep: string, rest: string)
    ensures pad + (first + (sep + " ") + rest) == pad + first + sep + (" " + rest)
  {
  }

  lemma {:induction false} PrintedLacks(ds: seq<string>)
    requires AllDirectives(ds)
    ensures Lacks(Join(ds, "; "), ',')
  {
    if |ds| > 1 {
      PrintedLacks(ds[1..]);
      JoinedLacks(ds[0], "; ", Join(ds[1..], "; "), ',');
    }
  }

  lemma JoinedLacks(a: string, sep: string, b: string, c: char)
    requires Lacks(a, c) && Lacks(sep, c) && Lacks(b, c)
    ensures Lacks(a + sep + b, c)
  {
  }

  lemma PoliciesOfOne(p: string)
    requires Lacks(p, ',')
    ensures PoliciesOf(p) == [Directives(p)]
  {
    LacksCuts(p, ',');
    FindNone(p, ",");
    assert Split(p, ",") == [p] && [p][1..] == [];
    assert Policies([p]) == [Directives(p)] + Policies([]);
  }

  lemma PoliciesOfCons(p: string, rest: string)
    requires Lacks(p, ',')
    ensures PoliciesOf(p + "," + rest) == [Directives(p)] + PoliciesOf(rest)
  {
    LacksCuts(p, ',');
    SplitAfter(p, ",", rest);
    assert ([p] + Split(rest, ","))[1..] == Split(rest, ",");
  }

  lemma {:induction false} PoliciesReadBack(pad: string, ps: seq<seq<string>>)
    requires IsPad(pad) && ps != [] && Printable(ps)
    ensures PoliciesOf(pad + Join(Printed(ps), ", ")) == ps
    decreases |ps|
  {
    var first := Join(ps[0], "; ");
    PrintedLacks(ps[0]);
    PadLacks(pad, first, ',');
    DirectivesReadBack(pad, ps[0]);
    PrintedLength(ps[1..]);
    assert Printed(ps)[1..] == Printed(ps[1..]);
    if |ps| == 1 {
      PoliciesOfOne(pad + first);
    } else {
      var rest := Join(Printed(ps[1..]), ", ");
      PoliciesOfCons(pad + first, " " + rest);
      PoliciesReadBack(" ", ps[1..]);
      Separated(pad, first, ",", rest);
      assert "," + " " == ", ";
      assert ps == [ps[0]] + ps[1..];
    }
  }

  lemma {:induction false} PrintedLength(ps: seq<seq<string>>)
    ensures |Printed(ps)| == |ps|
  {
    if ps != [] { PrintedLength(ps[1..]); }
  }

  lemma OneInFront(first: seq<string>, rest: seq<seq<string>>, origin: string)
    requires first != [] && Rewritten(first, origin) == first
    ensures RewrittenAll([first] + rest, origin) == [first] + RewrittenAll(rest, origin)
    ensures NonceAll([first] + rest) == OrElse(Nonce(first), NonceAll(rest))
  {
    assert ([first] + rest)[1..] == rest;
  }

  lemma PrintableCons(first: seq<string>, rest: seq<seq<string>>)
    requires first != [] && AllDirectives(first) && Printable(rest)
    ensures Printable([first] + rest)
  {
  }

  lemma {:induction false} RewrittenAllPrintable(ps: seq<seq<string>>, origin: string)
    requires AllPolicies(ps) && OriginOk(origin)
    ensures Printable(RewrittenAll(ps, origin))
  {
    if ps != [] {
      var first, rest := Rewritten(ps[0], origin), RewrittenAll(ps[1..], origin);
      RewrittenTwice(ps[0], origin);
      RewrittenAllPrintable(ps[1..], origin);
      RewrittenAllCons(ps, origin);
      if first != [] { PrintableCons(first, rest); }
    }
  }

  lemma {:induction false} RewrittenAllAgain(ps: seq<seq<string>>, origin: string)
    requires AllPolicies(ps) && OriginOk(origin)
    ensures RewrittenAll(RewrittenAll(ps, origin), origin) == RewrittenAll(ps, origin)
    ensures NonceAll(RewrittenAll(ps, origin)) == NonceAll(ps)
  {
    if ps != [] {
      var first, rest := Rewritten(ps[0], origin), RewrittenAll(ps[1..], origin);
      RewrittenTwice(ps[0], origin);
      RewrittenAllAgain(ps[1..], origin);
      RewrittenAllCons(ps, origin);
      if first == [] { assert Nonce(ps[0]) == None; } else { OneInFront(first, rest, origin); }
    }
  }

  lemma RewrittenAllTwice(ps: seq<seq<string>>, origin: string)
    requires AllPolicies(ps) && OriginOk(origin)
    ensures Printable(RewrittenAll(ps, origin))
    ensures RewrittenAll(RewrittenAll(ps, origin), origin) == RewrittenAll(ps, origin)
    ensures NonceAll(RewrittenAll(ps, origin)) == NonceAll(ps)
  {
    RewrittenAllPrintable(ps, origin);
    RewrittenAllAgain(ps, origin);
  }

  /** The rewritten header reads as the rewritten policies. */
  lemma RewriteReadsBack(value: string, origin: string)
    requires OriginOk(origin) && RewriteCsp(value, origin).0.Some?
    ensures PoliciesOf(RewriteCsp(value, origin).0.value) == RewrittenAll(PoliciesOf(value), origin)
  {
    PoliciesOfAreDirectives(value);
    var ps := PoliciesOf(value);
    RewrittenAllTwice(ps, origin);
    var out := RewrittenAll(ps, origin);
    PoliciesReadBack("", out);
    assert "" + Join(Printed(out), ", ") == Join(Printed(out), ", ");
  }

  /** Rewriting a rewritten header changes nothing and finds the same nonce. */
  lemma RewriteTwice(value: string, origin: string)
    requires OriginOk(origin)
    ensures match RewriteCsp(value, origin).0
            case Some(again) => RewriteCsp(again, origin) == RewriteCsp(value, origin)
            case None => RewriteCsp(value, origin).1 == None
  {
    PoliciesOfAreDirectives(value);
    RewrittenAllTwice(PoliciesOf(value), origin);
    if RewriteCsp(value, origin).0.Some? { RewriteReadsBack(value, origin); }
  }

  /** A policy under which the page may be framed and a script from the origin may load. */
  predicate Embeddable(ds: seq<string>, origin: string) {
    && FirstNamed(ds, ANCESTORS) == None
    && (InForce(ds).Some? ==> origin in InForce(ds).value)
  }

  predicate AllEmbeddable(ps: seq<seq<string>>, origin: string) {
    forall k :: 0 <= k < |ps| ==> Embeddable(ps[k], origin)
  }

  lemma EmbeddableCons(first: seq<string>, rest: seq<seq<string>>, origin: string)
    requires Embeddable(first, origin) && AllEmbeddable(rest, origin)
    ensures AllEmbeddable([first] + rest, origin)
  {
  }

  lemma RewrittenAllCons(ps: seq<seq<string>>, origin: string)
    requires ps != []
    ensures RewrittenAll(ps, origin)
         == if Rewritten(ps[0], origin) == [] then RewrittenAll(ps[1..], origin)
            else [Rewritten(ps[0], origin)] + RewrittenAll(ps[1..], origin)
  {
    assert [] + RewrittenAll(ps[1..], origin) == RewrittenAll(ps[1..], origin);
  }

  lemma {:induction false} RewrittenAllEmbeddable(ps: seq<seq<string>>, origin: string)
    requires AllPolicies(ps) && OriginOk(origin)
    ensures AllEmbeddable(RewrittenAll(ps, origin), origin)
  {
    if ps != [] {
      RewriteAllowsOrigin(ps[0], origin);
      RewrittenAllEmbeddable(ps[1..], origin);
      RewrittenAllCons(ps, origin);
      EmbeddableCons(Rewritten(ps[0], origin), RewrittenAll(ps[1..], origin), origin);
    }
  }

  /** What every browser reading the new header sees. */
  lemma RewriteIsEmbeddable(value: string, origin: string)
    requires OriginOk(origin) && RewriteCsp(value, origin).0.Some?
    ensures var out := PoliciesOf(RewriteCsp(value, origin).0.value);
      && out != [] && forall k :: 0 <= k < |out| ==> Embeddable(out[k], origin)
  {
    RewriteReadsBack(value, origin);
    PoliciesOfAreDirectives(value);
    RewrittenAllEmbeddable(PoliciesOf(value), origin);
  }

  lemma TwoDefaultsSpelled()
    ensures "default-src 'self'; default-src *" == Join([Join([DEFAULT, "'self'"], " "), Join([DEFAULT, "*"], " ")], "; ")
  {
    var a, b := Join([DEFAULT, "'self'"], " "), Join([DEFAULT, "*"], " ");
    assert [DEFAULT, "'self'"][1..] == ["'self'"] && [DEFAULT, "*"][1..] == ["*"] && [a, b][1..] == [b];
  }

  lemma OnePolicy(value: string, ds: seq<string>, origin: string)
    requires OriginOk(origin) && AllDirectives(ds) && ds != [] && value == Join(ds, "; ")
    requires Rewritten(ds, origin) != []
    ensures PoliciesOf(value) == [ds] && RewriteCsp(value, origin).0.Some?
    ensures PoliciesOf(RewriteCsp(value, origin).0.value) == [Rewritten(ds, origin)]
  {
    PoliciesReadBack("", [ds]);
    assert Printed([ds]) == [value] by { assert [ds][1..] == []; }
    assert "" + Join([value], ", ") == value;
    RewrittenAllCons([ds], origin);
    assert [ds][1..] == [];
    RewriteReadsBack(value, origin);
  }

  /** Such a header: 'self' is in force, and everything gets allowed. */
  lemma RepeatedDefaultIsWidened(origin: string)
    requires OriginOk(origin) && origin != "*"
    ensures var value := "default-src 'self'; default-src *";
      && |PoliciesOf(value)| == 1 && InForce(PoliciesOf(value)[0]) == Some(["'self'"])
      && RewriteCsp(value, origin).0.Some?
      && var out := PoliciesOf(RewriteCsp(value, origin).0.value);
         |out| == 1 && InForce(out[0]) == Some(["*", origin])
  {
    var ds := [Join([DEFAULT, "'self'"], " "), Join([DEFAULT, "*"], " ")];
    SelfAndStarAreWords();
    TwoDefaultsWiden("'self'", "*", origin);
    TwoDefaultsSpelled();
    OnePolicy("default-src 'self'; default-src *", ds, origin);
  }

  // ----- characters: the new header holds none that neither the old one nor the origin holds -----

  predicate AllLack(parts: seq<string>, c: char) {
    forall i :: 0 <= i < |parts| ==> Lacks(parts[i], c)
  }

  lemma {:induction false} JoinLacks(parts: seq<string>, sep: string, c: char)
    requires AllLack(parts, c) && Lacks(sep, c)
    ensures Lacks(Join(parts, sep), c)
  {
    if |parts| > 1 {
      JoinLacks(parts[1..], sep, c);
      JoinedLacks(parts[0], sep, Join(parts[1..], sep), c);
    }
  }

  lemma {:induction false} DirectivesLack(parts: seq<string>, c: char)
    requires AllLack(parts, c)
    ensures AllLack(StrippedNonEmpty(parts), c)
  {
    if parts != [] {
      var k := StripShape(parts[0], SPACES);
      DirectivesLack(parts[1..], c);
    }
  }

  lemma WordsLack(name: string, tokens: Words, origin: string, c: char)
    requires Lacks(name, c) && AllLack(tokens, c) && Lacks(origin, c) && c != ' '
    ensures Lacks(Join([name] + AllowOrigin(tokens, origin), " "), c)
  {
    JoinLacks([name] + AllowOrigin(tokens, origin), " ", c);
  }

  lemma {:induction false} KeptAllLack(ds: seq<string>, origin: string, c: char)
    requires AllLack(ds, c) && Lacks(origin, c) && c != ' '
    ensures AllLack(KeptAll(ds, origin), c)
    ensures LastDefault(ds).Some? ==> AllLack(LastDefault(ds).value, c)
  {
    if ds != [] {
      KeptAllLack(ds[1..], origin, c);
      var ws := WordsOf(ds[0]);
      WordsAreSolid(ds[0]);
      if ws != [] { WordsLack(ws[0], ws[1..], origin, c); }
    }
  }

  lemma RewrittenLack(ds: seq<string>, origin: string, c: char)
    requires AllLack(ds, c) && Lacks(origin, c) && c != ' ' && Lacks(SCRIPT_ELEM, c)
    ensures AllLack(Rewritten(ds, origin), c)
  {
    KeptAllLack(ds, origin, c);
    if LastDefault(ds).Some? { WordsLack(SCRIPT_ELEM, LastDefault(ds).value, origin, c); }
  }

  predicate PoliciesLack(ps: seq<seq<string>>, c: char) {
    forall i :: 0 <= i < |ps| ==> AllLack(ps[i], c)
  }

  lemma {:induction false} PoliciesOfLack(parts: seq<string>, c: char)
    requires AllLack(parts, c)
    ensures PoliciesLack(Policies(parts), c)
  {
    if parts != [] {
      SplitAllLack(parts[0], ";", c);
      DirectivesLack(Split(parts[0], ";"), c);
      PoliciesOfLack(parts[1..], c);
    }
  }

  lemma SplitAllLack(s: string, sep: string, c: char)
    requires Lacks(s, c) && sep != ""
    ensures AllLack(Split(s, sep), c)
  {
    forall k | 0 <= k < |Split(s, sep)| ensures Lacks(Split(s, sep)[k], c) {
      SplitKeepsLack(s, sep, c, k);
    }
  }

  lemma PrintedLack(ds: seq<string>, origin: string, c: char)
    requires AllLack(ds, c) && Lacks(origin, c) && c != ' ' && c != ';' && Lacks(SCRIPT_ELEM, c)
    ensures Lacks(Join(Rewritten(ds, origin), "; "), c)
  {
    RewrittenLack(ds, origin, c);
    JoinLacks(Rewritten(ds, origin), "; ", c);
  }

  lemma LackCons(first: string, rest: seq<string>, c: char)
    requires Lacks(first, c) && AllLack(rest, c)
    ensures AllLack([first] + rest, c)
  {
  }

  lemma {:induction false} RewrittenAllLack(ps: seq<seq<string>>, origin: string, c: char)
    requires PoliciesLack(ps, c) && Lacks(origin, c) && c != ' ' && c != ';' && Lacks(SCRIPT_ELEM, c)
    ensures AllLack(Printed(RewrittenAll(ps, origin)), c)
  {
    if ps != [] {
      var first, rest := Rewritten(ps[0], origin), RewrittenAll(ps[1..], origin);
      PrintedLack(ps[0], origin, c);
      RewrittenAllLack(ps[1..], origin, c);
      LackCons(Join(first, "; "), Printed(rest), c);
      PrintedOne(first, rest);
    }
  }

  lemma RewriteLacks(value: string, origin: string, c: char)
    requires Lacks(value, c) && Lacks(origin, c) && c !in {' ', ';', ','} && Lacks(SCRIPT_ELEM, c)
    ensures RewriteCsp(value, origin).0.Some? ==> Lacks(RewriteCsp(value, origin).0.value, c)
  {
    SplitAllLack(value, ",", c);
    PoliciesOfLack(Split(value, ","), c);
    RewrittenAllLack(PoliciesOf(value), origin, c);
    JoinLacks(Printed(RewrittenAll(PoliciesOf(value), origin)), ", ", c);
  }

  predicate AllTrim(parts: seq<string>) {
    forall i :: 0 <= i < |parts| ==> parts[i] != "" && Stripped(parts[i], SPACES)
  }

  lemma {:induction false} JoinTrim(parts: seq<string>, sep: string)
    requires parts != [] && AllTrim(parts)
    ensures Join(parts, sep) != "" && Stripped(Join(parts, sep), SPACES)
  {
    if |parts| > 1 {
      JoinTrim(parts[1..], sep);
      var rest := Join(parts[1..], sep);
      var s := parts[0] + sep + rest;
      assert s[0] == parts[0][0] && s[|s| - 1] == rest[|rest| - 1];
    }
  }

  lemma {:induction false} PrintedTrim(ps: seq<seq<string>>)
    requires Printable(ps)
    ensures AllTrim(Printed(ps))
  {
    if ps != [] {
      forall i | 0 <= i < |ps[0]| ensures ps[0][i] != "" && Stripped(ps[0][i], SPACES) {
        assert IsDirective(ps[0][i]);
      }
      JoinTrim(ps[0], "; ");
      PrintedTrim(ps[1..]);
    }
  }

  lemma RewriteTrims(value: string, origin: string)
    requires OriginOk(origin)
    ensures RewriteCsp(value, origin).0.Some? ==> Stripped(RewriteCsp(value, origin).0.value, SPACES)
  {
    PoliciesOfAreDirectives(value);
    var out := RewrittenAll(PoliciesOf(value), origin);
    RewrittenAllTwice(PoliciesOf(value), origin);
    PrintedTrim(out);
    PrintedLength(out);
    if out != [] { JoinTrim(Printed(out), ", "); }
  }

  // ----- the loops -----

  /** What the loop over one policy has done, against the directives still ahead of it. */
  ghost predicate Ahead(out: seq<string>, seen: bool, tokens: Option<Words>, nonce: Option<string>,
                        rest: seq<string>, ds: seq<string>, before: Option<string>, origin: string) {
    && out + KeptAll(rest, origin) == KeptAll(ds, origin)
    && (seen || ScriptSeen(rest) <==> ScriptSeen(ds))
    && Later(LastDefault(rest), tokens) == LastDefault(ds)
    && OrElse(nonce, Nonce(rest)) == OrElse(before, Nonce(ds))
  }

  lemma AheadStep(out: seq<string>, seen: bool, tokens: Option<Words>, nonce: Option<string>,
                  d: string, rest: seq<string>, ds: seq<string>, before: Option<string>, origin: string)
    requires Ahead(out, seen, tokens, nonce, [d] + rest, ds, before, origin)
    ensures Ahead(out + Kept(d, origin), seen || IsScript(d),
                  if Name(d) == DEFAULT then Some(Values(d)) else tokens,
                  if IsScript(d) || Name(d) == DEFAULT then OrElse(nonce, FindNonce(Values(d))) else nonce,
                  rest, ds, before, origin)
  {
    assert ([d] + rest)[1..] == rest;
    assert KeptAll([d] + rest, origin) == Kept(d, origin) + KeptAll(rest, origin);
    Regroup(out, Kept(d, origin), KeptAll(rest, origin));
  }

  lemma NamesDiffer(d: string)
    ensures Name(d) == DEFAULT ==> !IsScript(d) && Name(d) != ANCESTORS
    ensures Name(d) == ANCESTORS ==> !IsScript(d)
  {
    assert |DEFAULT| == 11 && |SCRIPT| == 10;
    assert SCRIPT_ELEM[0] == 's' && ANCESTORS[0] == 'f' && |ANCESTORS| == 15;
  }

  method RewritePolicy(policy: string, origin: string, before: Option<string>)
    returns (out: seq<string>, nonce: Option<string>)
    ensures out == Rewritten(Directives(policy), origin)
    ensures nonce == OrElse(before, Nonce(Directives(policy)))
  {
    out, nonce := [], before;
    var scriptDirectiveSeen := false;
    var defaultTokens: Option<Words> := None;
    var parts := Split(policy, ";");
    ghost var ds := Directives(policy);
    var i := 0;
    assert parts[0..] == parts;
    while i < |parts|
      invariant 0 <= i <= |parts|
      invariant Ahead(out, scriptDirectiveSeen, defaultTokens, nonce, StrippedNonEmpty(parts[i..]), ds, before, origin)
    {
      var d := Strip(parts[i], SPACES);
      ghost var rest := StrippedNonEmpty(parts[i + 1..]);
      StrippedOne(parts, i);
      if d != "" {
        NamesDiffer(d);
        AheadStep(out, scriptDirectiveSeen, defaultTokens, nonce, d, rest, ds, before, origin);
        if Name(d) == ANCESTORS {
          assert out + [] == out;
        } else if IsScript(d) {
          scriptDirectiveSeen := true;
          nonce := OrElse(nonce, FindNonce(Values(d)));
          out := out + [Widened(d, origin)];
        } else {
          if Name(d) == DEFAULT {
            defaultTokens := Some(Values(d));
            nonce := OrElse(nonce, FindNonce(Values(d)));
          }
          out := out + [d];
        }
      }
      i := i + 1;
    }
    assert parts[i..] == [] && out + [] == out;
    if defaultTokens.Some? && !scriptDirectiveSeen {
      out := out + [Join([SCRIPT_ELEM] + AllowOrigin(defaultTokens.value, origin), " ")];
    }
  }

  lemma StrippedOne(parts: seq<string>, i: nat)
    requires i < |parts|
    ensures StrippedNonEmpty(parts[i..])
         == if Strip(parts[i], SPACES) == "" then StrippedNonEmpty(parts[i + 1..])
            else [Strip(parts[i], SPACES)] + StrippedNonEmpty(parts[i + 1..])
  {
    assert parts[i..][1..] == parts[i + 1..];
  }

  function Later(later: Option<Words>, earlier: Option<Words>): Option<Words> {
    if later.Some? then later else earlier
  }

  lemma Regroup<T>(a: seq<T>, b: seq<T>, c: seq<T>)
    ensures a + (b + c) == a + b + c
    ensures b == [] ==> a + (b + c) == a + c
  {
  }

  /** rewrite_csp as the program runs it. */
  method RewriteHeader(value: string, origin: string) returns (header: Option<string>, nonce: Option<string>)
    ensures (header, nonce) == RewriteCsp(value, origin)
  {
    nonce := None;
    var policies: seq<string> := [];
    var parts := Split(value, ",");
    var i := 0;
    ghost var all := RewrittenAll(PoliciesOf(value), origin);
    assert parts[0..] == parts;
    while i < |parts|
      invariant 0 <= i <= |parts|
      invariant policies + Printed(RewrittenAll(Policies(parts[i..]), origin)) == Printed(all)
      invariant OrElse(nonce, NonceAll(Policies(parts[i..]))) == NonceAll(PoliciesOf(value))
    {
      var out: seq<string>;
      ghost var rest := RewrittenAll(Policies(parts[i + 1..]), origin);
      assert parts[i..][1..] == parts[i + 1..];
      out, nonce := RewritePolicy(parts[i], origin, nonce);
      PrintedOne(out, rest);
      Regroup(policies, if out == [] then [] else [Join(out, "; ")], Printed(rest));
      PoliciesOne(parts[i..]);
      if out != [] { policies := policies + [Join(out, "; ")]; }
      i := i + 1;
    }
    assert parts[i..] == [];
    PrintedLength(all);
    assert policies == Printed(all);
    header := if policies == [] then None else Some(Join(policies, ", "));
  }

  lemma PoliciesOne(parts: seq<string>)
    requires parts != []
    ensures Policies(parts)[0] == Directives(parts[0]) && Policies(parts)[1..] == Policies(parts[1..])
  {
  }

  lemma PrintedOne(out: seq<string>, rest: seq<seq<string>>)
    ensures Printed((if out == [] then [] else [out]) + rest)
         == (if out == [] then [] else [Join(out, "; ")]) + Printed(rest)
  {
    if out != [] {
      assert ([out] + rest)[1..] == rest;
    } else {
      assert [] + rest == rest;
    }
  }
}
