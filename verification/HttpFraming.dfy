/** How a message body is delimited, and the rewriting of headers. */
module HttpFraming {
  // The preview proxy forwards the end-to-end headers and frames the message the way it was read
  // (daemon/preview_proxy.py).

  import opened Basics
  import opened Text
  import opened HttpHead
  import opened HttpWire
  import Csp

  const TRANSFER := "transfer-encoding"
  const CONTENT_LENGTH := "content-length"
  const CONNECTION := "connection"

  // ----- header lists -----

  function TokensOf(parts: seq<string>): seq<string> {
    if parts == [] then []
    else
      var t := Strip(parts[0], SPACES);
      (if t == "" then [] else [Lower(t)]) + TokensOf(parts[1..])
  }

  function Tokens(value: string): seq<string> {
    TokensOf(Split(value, ","))
  }

  predicate Named(h: Header, name: string) {
    Lower(h.0) == name
  }

  /** The values sent under a (lower-case) name, in order. */
  function Valued(hs: Headers, name: string): seq<string> {
    if hs == [] then []
    else (if Named(hs[0], name) then [hs[0].1] else []) + Valued(hs[1..], name)
  }

  /** The tokens of a list of values. */
  function Listed(values: seq<string>): seq<string> {
    if values == [] then [] else Tokens(values[0]) + Listed(values[1..])
  }

  /** What the Connection headers name: meant for the next hop only (section 7.6.1 of RFC 9110). */
  function ConnectionTokens(hs: Headers): seq<string> {
    Listed(Valued(hs, CONNECTION))
  }

  // ----- framing -----

  /** Which message is being framed; a response answers a request with this method. */
  datatype Side = Request | Response(status: nat, method_: string)

  datatype Framed = Ok(framing: Framing) | Refused(status: int)

  predicate Bodyless(side: Side) {
    side.Response? && (side.method_ == "HEAD" || side.status < 200 || side.status == 204 || side.status == 304)
  }

  function Decide(transfer: seq<string>, lengths: seq<string>, side: Side): Framed {
    var bad := if side.Response? then 502 else 400;
    if transfer != [] then
      if transfer[|transfer| - 1] != "chunked" then Refused(bad)
      else if lengths != [] && side.Request? then Refused(400)
      else Ok(Chunked)
    else if lengths != [] then
      if (exists i :: 0 <= i < |lengths| && lengths[i] != lengths[0]) || !AllDigits(lengths[0]) then Refused(bad)
      else Ok(Length(ParseDecimal(lengths[0])))
    else Ok(if side.Response? then UntilClose else NoBody)
  }

  /** _framing */
  function FramingOf(hs: Headers, side: Side): Framed {
    if Bodyless(side) then Ok(NoBody)
    else Decide(Listed(Valued(hs, TRANSFER)), Listed(Valued(hs, CONTENT_LENGTH)), side)
  }

  /** The header that settles the framing, when one does. */
  function Deciding(hs: Headers, side: Side): Option<string> {
    if Bodyless(side) then None
    else if Listed(Valued(hs, TRANSFER)) != [] then Some(TRANSFER)
    else if Listed(Valued(hs, CONTENT_LENGTH)) != [] then Some(CONTENT_LENGTH)
    else None
  }

  // ----- rewriting one header -----

  datatype Config = Config(targetOrigin: string, targetHost: string, frontendOrigin: string)

  const DROPPED_UP: seq<string> :=
    ["proxy-authorization", "proxy-connection", "keep-alive", "te", "expect", "accept-encoding"]
  const DROPPED_DOWN: seq<string> := ["x-frame-options", "connection", "keep-alive", "proxy-connection"]

  predicate StartsAt(url: string, origin: string) {
    origin <= url && (url == origin || url[|origin|] in {'/', '?', '#'})
  }

  /** _swap_origin_prefix; the old origins in the order the loop meets them. */
  function SwapOrigin(url: string, from: seq<string>, origin: string): string {
    if from == [] then url
    else if StartsAt(url, from[0]) then origin + url[|from[0]|..]
    else SwapOrigin(url, from[1..], origin)
  }

  predicate DropsUp(name: string, named: seq<string>, upgrade: bool) {
    || name in DROPPED_UP
    || (name in named && name != "upgrade" && name != CONNECTION)
    || ((name == CONNECTION || name == "upgrade") && !upgrade)
  }

  /** The value sent upstream under a name that is not dropped. */
  function ValueUp(name: string, value: string, cfg: Config, proxies: seq<string>): string {
    if name == "host" then cfg.targetHost
    else if name == "origin" then if value in proxies then cfg.targetOrigin else value
    else if name == "referer" then SwapOrigin(value, proxies, cfg.targetOrigin)
    else value
  }

  function HeaderUp(h: Header, cfg: Config, proxies: seq<string>, named: seq<string>, upgrade: bool): Headers {
    if DropsUp(Lower(h.0), named, upgrade) then [] else [(h.0, ValueUp(Lower(h.0), h.1, cfg, proxies))]
  }

  function HeadersUp(hs: Headers, cfg: Config, proxies: seq<string>, named: seq<string>, upgrade: bool): Headers {
    if hs == [] then []
    else HeaderUp(hs[0], cfg, proxies, named, upgrade) + HeadersUp(hs[1..], cfg, proxies, named, upgrade)
  }

  const IDENTITY: Header := ("Accept-Encoding", "identity")
  const CLOSE: Header := ("Connection", "close")

  function RequestHeaders(hs: Headers, cfg: Config, proxies: seq<string>, upgrade: bool): Headers {
    HeadersUp(hs, cfg, proxies, ConnectionTokens(hs), upgrade) + [IDENTITY] + if upgrade then [] else [CLOSE]
  }

  predicate DropsDown(name: string, named: seq<string>) {
    name in DROPPED_DOWN || name in named
  }

  /** The value sent down under a name that is not dropped; None when a policy is used up. */
  function ValueDown(name: string, value: string, cfg: Config, proxy: string): Option<string> {
    if name == "content-security-policy" then Csp.RewriteCsp(value, cfg.frontendOrigin).0
    else if name == "location" || name == "content-location" then Some(SwapOrigin(value, [cfg.targetOrigin], proxy))
    else if name == "access-control-allow-origin" && value == cfg.targetOrigin then Some(proxy)
    else Some(value)
  }

  function HeaderDown(h: Header, cfg: Config, proxy: string, named: seq<string>): Headers {
    if DropsDown(Lower(h.0), named) then []
    else match ValueDown(Lower(h.0), h.1, cfg, proxy) case None => [] case Some(v) => [(h.0, v)]
  }

  function HeadersDown(hs: Headers, cfg: Config, proxy: string, named: seq<string>): Headers {
    if hs == [] then [] else HeaderDown(hs[0], cfg, proxy, named) + HeadersDown(hs[1..], cfg, proxy, named)
  }

  function ResponseHeaders(hs: Headers, cfg: Config, proxy: string): Headers {
    HeadersDown(hs, cfg, proxy, ConnectionTokens(hs)) + [CLOSE]
  }

  predicate HasPolicy(h: Header, named: seq<string>) {
    !DropsDown(Lower(h.0), named) && Lower(h.0) == "content-security-policy"
  }

  function NonceDown(hs: Headers, cfg: Config, named: seq<string>): Option<string> {
    if hs == [] then None
    else if HasPolicy(hs[0], named)
    then Csp.OrElse(Csp.RewriteCsp(hs[0].1, cfg.frontendOrigin).1, NonceDown(hs[1..], cfg, named))
    else NonceDown(hs[1..], cfg, named)
  }

  // ----- the loops -----

  method RewriteRequest(hs: Headers, cfg: Config, proxies: seq<string>, upgrade: bool) returns (out: Headers)
    ensures out == RequestHeaders(hs, cfg, proxies, upgrade)
  {
    var named := ConnectionTokens(hs);
    out := [];
    assert hs[0..] == hs;
    for i := 0 to |hs|
      invariant out + HeadersUp(hs[i..], cfg, proxies, named, upgrade) == HeadersUp(hs, cfg, proxies, named, upgrade)
    {
      var (key, value) := hs[i];
      var name := Lower(key);
      ghost var rest := HeadersUp(hs[i + 1..], cfg, proxies, named, upgrade);
      assert hs[i..][1..] == hs[i + 1..];
      Assoc(out, HeaderUp(hs[i], cfg, proxies, named, upgrade), rest);
      assert out + [] == out;
      if DropsUp(name, named, upgrade) { continue; }
      out := out + [(key, ValueUp(name, value, cfg, proxies))];
    }
    assert hs[|hs|..] == [] && out + [] == out;
    out := out + [IDENTITY];
    if !upgrade { out := out + [CLOSE]; } else { assert out + [] == out; }
  }

  lemma DownStep(hs: Headers, i: nat, cfg: Config, proxy: string, named: seq<string>, out: Headers, nonce: Option<string>)
    requires i < |hs|
    ensures out + HeadersDown(hs[i..], cfg, proxy, named)
         == out + HeaderDown(hs[i], cfg, proxy, named) + HeadersDown(hs[i + 1..], cfg, proxy, named)
    ensures Csp.OrElse(nonce, NonceDown(hs[i..], cfg, named))
         == Csp.OrElse(Csp.OrElse(nonce, NonceIn(hs[i], cfg, named)), NonceDown(hs[i + 1..], cfg, named))
  {
    assert hs[i..][1..] == hs[i + 1..];
    Assoc(out, HeaderDown(hs[i], cfg, proxy, named), HeadersDown(hs[i + 1..], cfg, proxy, named));
  }

  function NonceIn(h: Header, cfg: Config, named: seq<string>): Option<string> {
    if HasPolicy(h, named) then Csp.RewriteCsp(h.1, cfg.frontendOrigin).1 else None
  }

  /** One turn of the loop: nothing, or the header with its value rewritten. */
  method RewriteDown(h: Header, cfg: Config, proxy: string, named: seq<string>)
    returns (kept: Headers, found: Option<string>)
    ensures kept == HeaderDown(h, cfg, proxy, named) && found == NonceIn(h, cfg, named)
  {
    var (key, value) := h;
    var name := Lower(key);
    if DropsDown(name, named) { return [], None; }
    if name == "content-security-policy" {
      var rewritten;
      rewritten, found := Csp.RewriteHeader(value, cfg.frontendOrigin);
      kept := if rewritten.Some? then [(key, rewritten.value)] else [];
    } else {
      kept, found := [(key, ValueDown(name, value, cfg, proxy).value)], None;
    }
  }

  method RewriteResponse(hs: Headers, cfg: Config, proxy: string) returns (out: Headers, nonce: Option<string>)
    ensures out == ResponseHeaders(hs, cfg, proxy)
    ensures nonce == NonceDown(hs, cfg, ConnectionTokens(hs))
  {
    var named := ConnectionTokens(hs);
    out, nonce := [], None;
    assert hs[0..] == hs;
    for i := 0 to |hs|
      invariant out + HeadersDown(hs[i..], cfg, proxy, named) == HeadersDown(hs, cfg, proxy, named)
      invariant Csp.OrElse(nonce, NonceDown(hs[i..], cfg, named)) == NonceDown(hs, cfg, named)
    {
      DownStep(hs, i, cfg, proxy, named, out, nonce);
      var kept, found := RewriteDown(hs[i], cfg, proxy, named);
      out, nonce := out + kept, Csp.OrElse(nonce, found);
    }
    assert hs[|hs|..] == [] && out + [] == out;
    out := out + [CLOSE];
  }

  // ----- what arrives under each name -----

  function MapUp(name: string, values: seq<string>, cfg: Config, proxies: seq<string>): seq<string> {
    if values == [] then [] else [ValueUp(name, values[0], cfg, proxies)] + MapUp(name, values[1..], cfg, proxies)
  }

  function MapDown(name: string, values: seq<string>, cfg: Config, proxy: string): seq<string> {
    if values == [] then []
    else (match ValueDown(name, values[0], cfg, proxy) case None => [] case Some(v) => [v])
         + MapDown(name, values[1..], cfg, proxy)
  }

  lemma {:induction false} ValuedAppend(a: Headers, b: Headers, name: string)
    ensures Valued(a + b, name) == Valued(a, name) + Valued(b, name)
  {
    if a == [] {
      assert a + b == b;
    } else {
      assert (a + b)[1..] == a[1..] + b;
      ValuedAppend(a[1..], b, name);
      Assoc(if Named(a[0], name) then [a[0].1] else [], Valued(a[1..], name), Valued(b, name));
    }
  }

  lemma {:induction false} HeadersUpValues(hs: Headers, cfg: Config, proxies: seq<string>, named: seq<string>,
                                           upgrade: bool, name: string)
    ensures Valued(HeadersUp(hs, cfg, proxies, named, upgrade), name)
         == if DropsUp(name, named, upgrade) then [] else MapUp(name, Valued(hs, name), cfg, proxies)
  {
    if hs != [] {
      HeadersUpValues(hs[1..], cfg, proxies, named, upgrade, name);
      var one := HeaderUp(hs[0], cfg, proxies, named, upgrade);
      ValuedAppend(one, HeadersUp(hs[1..], cfg, proxies, named, upgrade), name);
      if one != [] { ValuedOne(one[0], name); }
      var values := Valued(hs[1..], name);
      assert ([hs[0].1] + values)[1..] == values && [] + values == values;
    }
  }

  lemma {:induction false} HeadersDownValues(hs: Headers, cfg: Config, proxy: string, named: seq<string>, name: string)
    ensures Valued(HeadersDown(hs, cfg, proxy, named), name)
         == if DropsDown(name, named) then [] else MapDown(name, Valued(hs, name), cfg, proxy)
  {
    if hs != [] {
      HeadersDownValues(hs[1..], cfg, proxy, named, name);
      var one := HeaderDown(hs[0], cfg, proxy, named);
      ValuedAppend(one, HeadersDown(hs[1..], cfg, proxy, named), name);
      if one != [] { ValuedOne(one[0], name); }
      var values := Valued(hs[1..], name);
      assert ([hs[0].1] + values)[1..] == values && [] + values == values;
    }
  }

  lemma ValuedOne(h: Header, name: string)
    ensures Valued([h], name) == if Named(h, name) then [h.1] else []
  {
    assert [h][1..] == [];
  }

  lemma OwnNames()
    ensures Lower(IDENTITY.0) == "accept-encoding" && Lower(CLOSE.0) == CONNECTION
  {
  }

  /** Under every name: what reaches the dev server. */
  lemma RequestValues(hs: Headers, cfg: Config, proxies: seq<string>, upgrade: bool, name: string)
    ensures Valued(RequestHeaders(hs, cfg, proxies, upgrade), name)
         == (if DropsUp(name, ConnectionTokens(hs), upgrade) then [] else MapUp(name, Valued(hs, name), cfg, proxies))
            + (if name == "accept-encoding" then ["identity"] else [])
            + (if name == CONNECTION && !upgrade then ["close"] else [])
  {
    var named := ConnectionTokens(hs);
    var up := HeadersUp(hs, cfg, proxies, named, upgrade);
    HeadersUpValues(hs, cfg, proxies, named, upgrade, name);
    OwnNames();
    ValuedAppend(up, [IDENTITY], name);
    ValuedAppend(up + [IDENTITY], if upgrade then [] else [CLOSE], name);
    ValuedOne(IDENTITY, name);
    ValuedOne(CLOSE, name);
  }

  /** Under every name: what reaches the browser. */
  lemma ResponseValues(hs: Headers, cfg: Config, proxy: string, name: string)
    ensures Valued(ResponseHeaders(hs, cfg, proxy), name)
         == if name == CONNECTION then ["close"]
            else if DropsDown(name, ConnectionTokens(hs)) then []
            else MapDown(name, Valued(hs, name), cfg, proxy)
  {
    var named := ConnectionTokens(hs);
    HeadersDownValues(hs, cfg, proxy, named, name);
    OwnNames();
    ValuedAppend(HeadersDown(hs, cfg, proxy, named), [CLOSE], name);
    ValuedOne(CLOSE, name);
  }

  /** Names that are passed on untouched unless Connection names them. */
  predicate Plain(name: string) {
    && name !in DROPPED_UP && name !in DROPPED_DOWN
    && name != CONNECTION && name != "upgrade" && name != "host" && name != "origin" && name != "referer"
    && name != "content-security-policy" && name != "location" && name != "content-location"
    && name != "access-control-allow-origin" && name != "accept-encoding"
  }

  lemma FramingNamesArePlain()
    ensures Plain(TRANSFER) && Plain(CONTENT_LENGTH)
  {
    NoneIsAsLong(TRANSFER);
    NoneIsAsLong(CONTENT_LENGTH);
  }

  lemma NoneIsAsLong(name: string)
    requires |name| == 17 || |name| == 14
    ensures Plain(name)
  {
    assert forall k :: 0 <= k < 6 ==> |DROPPED_UP[k]| !in {14, 17};
    assert forall k :: 0 <= k < 4 ==> |DROPPED_DOWN[k]| !in {14, 17};
  }

  lemma {:induction false} MapPlain(name: string, values: seq<string>, cfg: Config, proxies: seq<string>, proxy: string)
    requires Plain(name)
    ensures MapUp(name, values, cfg, proxies) == values && MapDown(name, values, cfg, proxy) == values
  {
    if values != [] {
      MapPlain(name, values[1..], cfg, proxies, proxy);
      assert [values[0]] + values[1..] == values;
    }
  }

  lemma PlainValues(hs: Headers, cfg: Config, proxies: seq<string>, proxy: string, upgrade: bool, name: string)
    requires Plain(name)
    ensures var kept := if name in ConnectionTokens(hs) then [] else Valued(hs, name);
            && Valued(RequestHeaders(hs, cfg, proxies, upgrade), name) == kept
            && Valued(ResponseHeaders(hs, cfg, proxy), name) == kept
  {
    RequestValues(hs, cfg, proxies, upgrade, name);
    ResponseValues(hs, cfg, proxy, name);
    MapPlain(name, Valued(hs, name), cfg, proxies, proxy);
  }

  // ----- the framing survives -----

  predicate NamesDecider(hs: Headers, side: Side) {
    Deciding(hs, side).Some? && Deciding(hs, side).value in ConnectionTokens(hs)
  }

  lemma DecideKinds(transfer: seq<string>, lengths: seq<string>, side: Side)
    ensures transfer != [] ==> Decide(transfer, lengths, side) == Ok(Chunked) || Decide(transfer, lengths, side).Refused?
    ensures transfer == [] && lengths != [] ==>
              var d := Decide(transfer, lengths, side); d.Refused? || d.framing.Length?
    ensures transfer == [] && lengths == [] ==>
              var d := Decide(transfer, lengths, side); d == Ok(UntilClose) || d == Ok(NoBody)
  {
  }

  /** Where the transfer coding decides, the lengths of a response are not looked at, and a
      request has none. */
  lemma LengthsIgnored(transfer: seq<string>, lengths: seq<string>, side: Side)
    requires transfer != [] && Decide(transfer, lengths, side).Ok?
    ensures Decide(transfer, [], side) == Decide(transfer, lengths, side)
  {
  }

  /** Any rewrite that drops a framing header only when Connection names it keeps the framing
      exactly when Connection does not name the header that decides it. */
  lemma FramingKept(hs: Headers, out: Headers, side: Side)
    requires FramingOf(hs, side).Ok?
    requires Valued(out, TRANSFER) == if TRANSFER in ConnectionTokens(hs) then [] else Valued(hs, TRANSFER)
    requires Valued(out, CONTENT_LENGTH)
          == if CONTENT_LENGTH in ConnectionTokens(hs) then [] else Valued(hs, CONTENT_LENGTH)
    ensures FramingOf(out, side) == FramingOf(hs, side) <==> !NamesDecider(hs, side)
  {
    if !Bodyless(side) {
      var te, cl := Listed(Valued(hs, TRANSFER)), Listed(Valued(hs, CONTENT_LENGTH));
      var te', cl' := Listed(Valued(out, TRANSFER)), Listed(Valued(out, CONTENT_LENGTH));
      assert Listed([]) == [];
      DecideKinds(te, cl, side);
      DecideKinds(te', cl', side);
      if te != [] { LengthsIgnored(te, cl, side); }
    }
  }

  /** The dev server reads the request body with the framing the proxy copied it by. */
  lemma RequestKeepsFraming(hs: Headers, cfg: Config, proxies: seq<string>, upgrade: bool)
    requires FramingOf(hs, Request).Ok?
    ensures FramingOf(RequestHeaders(hs, cfg, proxies, upgrade), Request) == FramingOf(hs, Request)
       <==> !NamesDecider(hs, Request)
  {
    FramingNamesArePlain();
    PlainValues(hs, cfg, proxies, "", upgrade, TRANSFER);
    PlainValues(hs, cfg, proxies, "", upgrade, CONTENT_LENGTH);
    FramingKept(hs, RequestHeaders(hs, cfg, proxies, upgrade), Request);
  }

  /** The browser reads the response body with the framing the proxy copied it by. */
  lemma ResponseKeepsFraming(hs: Headers, cfg: Config, proxy: string, side: Side)
    requires side.Response? && FramingOf(hs, side).Ok?
    ensures FramingOf(ResponseHeaders(hs, cfg, proxy), side) == FramingOf(hs, side) <==> !NamesDecider(hs, side)
  {
    FramingNamesArePlain();
    PlainValues(hs, cfg, [], proxy, false, TRANSFER);
    PlainValues(hs, cfg, [], proxy, false, CONTENT_LENGTH);
    FramingKept(hs, ResponseHeaders(hs, cfg, proxy), side);
  }

  lemma OneToken(value: string)
    requires Lacks(value, ',') && value != "" && Stripped(value, SPACES) && Lower(value) == value
    ensures Listed([value]) == [value]
  {
    LacksCuts(value, ',');
    assert "," == [','];
    FindNone(value, ",");
    StripStripped(value, SPACES);
    assert [value][1..] == [] && Listed([]) == [] && TokensOf([]) == [];
    assert TokensOf([value]) == [value] + [];
    assert Listed([value]) == Tokens(value) + [];
  }

  lemma ValuedTwo(h: Header, l: Header, name: string)
    ensures Valued([h, l], name) == (if Named(h, name) then [h.1] else []) + if Named(l, name) then [l.1] else []
  {
    assert [h, l] == [h] + [l];
    ValuedAppend([h], [l], name);
    ValuedOne(h, name);
    ValuedOne(l, name);
  }

  lemma OwnNamesAreLower()
    ensures Lower(CONNECTION) == CONNECTION && Lower(CONTENT_LENGTH) == CONTENT_LENGTH && Lower("5") == "5"
    ensures CONNECTION != CONTENT_LENGTH && TRANSFER != CONNECTION && TRANSFER != CONTENT_LENGTH
  {
  }

  lemma FiveIsFive()
    ensures AllDigits("5") && ParseDecimal("5") == 5
  {
    assert "5"[..0] == "";
  }

  lemma NamedLengthValues(hs: Headers, c: string, n: string, t: string, digits: string)
    requires hs == [(c, n), (n, digits)] && Lower(c) == c && Lower(n) == n && c != n && t != c && t != n
    requires Listed([n]) == [n] && Listed([digits]) == [digits]
    ensures Listed(Valued(hs, c)) == [n] && Listed(Valued(hs, n)) == [digits] && Valued(hs, t) == []
  {
    ValuedTwo((c, n), (n, digits), c);
    ValuedTwo((c, n), (n, digits), n);
    ValuedTwo((c, n), (n, digits), t);
  }

  lemma LengthFrames(hs: Headers, side: Side)
    requires !Bodyless(side) && Valued(hs, TRANSFER) == [] && Listed(Valued(hs, CONTENT_LENGTH)) == ["5"]
    ensures FramingOf(hs, side) == Ok(Length(5))
  {
    assert Listed([]) == [];
    FiveIsFive();
  }

  lemma NothingFrames(hs: Headers, side: Side)
    requires !Bodyless(side) && Valued(hs, TRANSFER) == [] && Valued(hs, CONTENT_LENGTH) == []
    ensures FramingOf(hs, side) == Ok(if side.Response? then UntilClose else NoBody)
  {
    assert Listed([]) == [];
  }

  lemma NamedLengthIsDropped(hs: Headers, cfg: Config, proxies: seq<string>, proxy: string, upgrade: bool)
    requires CONTENT_LENGTH in ConnectionTokens(hs) && Valued(hs, TRANSFER) == []
    ensures Valued(RequestHeaders(hs, cfg, proxies, upgrade), CONTENT_LENGTH) == []
    ensures Valued(ResponseHeaders(hs, cfg, proxy), CONTENT_LENGTH) == []
    ensures Valued(RequestHeaders(hs, cfg, proxies, upgrade), TRANSFER) == []
    ensures Valued(ResponseHeaders(hs, cfg, proxy), TRANSFER) == []
  {
    FramingNamesArePlain();
    PlainValues(hs, cfg, proxies, proxy, upgrade, TRANSFER);
    PlainValues(hs, cfg, proxies, proxy, upgrade, CONTENT_LENGTH);
  }

  lemma LengthIsOneToken()
    ensures Listed([CONTENT_LENGTH]) == [CONTENT_LENGTH]
  {
    OneToken(CONTENT_LENGTH);
  }

  lemma FiveIsOneToken()
    ensures Listed(["5"]) == ["5"]
  {
    OneToken("5");
  }

  lemma NamedLengthReads(hs: Headers)
    requires hs == [(CONNECTION, CONTENT_LENGTH), (CONTENT_LENGTH, "5")]
    ensures ConnectionTokens(hs) == [CONTENT_LENGTH]
    ensures Valued(hs, TRANSFER) == [] && Listed(Valued(hs, CONTENT_LENGTH)) == ["5"]
  {
    OwnNamesAreLower();
    LengthIsOneToken();
    FiveIsOneToken();
    NamedLengthValues(hs, CONNECTION, CONTENT_LENGTH, TRANSFER, "5");
  }

  /** A length that Connection names is dropped, and the message is framed anew: a request loses
      its body, a response runs until the connection closes. */
  lemma NamedLengthIsLost(hs: Headers, cfg: Config, proxies: seq<string>, proxy: string, upgrade: bool, side: Side)
    requires hs == [(CONNECTION, CONTENT_LENGTH), (CONTENT_LENGTH, "5")] && !Bodyless(side)
    ensures FramingOf(hs, side) == Ok(Length(5))
    ensures side.Request? ==> FramingOf(RequestHeaders(hs, cfg, proxies, upgrade), side) == Ok(NoBody)
    ensures side.Response? ==> FramingOf(ResponseHeaders(hs, cfg, proxy), side) == Ok(UntilClose)
  {
    NamedLengthReads(hs);
    LengthFrames(hs, side);
    NamedLengthIsDropped(hs, cfg, proxies, proxy, upgrade);
    NothingFrames(RequestHeaders(hs, cfg, proxies, upgrade), side);
    NothingFrames(ResponseHeaders(hs, cfg, proxy), side);
  }

  // ----- the injecting path -----

  const STALE: seq<string> :=
    ["content-length", "transfer-encoding", "etag", "last-modified", "cache-control", "expires", "pragma",
     "content-md5", "digest", "content-digest", "repr-digest"]

  function WithoutStale(hs: Headers): Headers {
    if hs == [] then []
    else (if Lower(hs[0].0) in STALE then [] else [hs[0]]) + WithoutStale(hs[1..])
  }

  /** The headers of the edited document. */
  function EditedHeaders(hs: Headers, edited: Bytes): Headers {
    WithoutStale(hs) + [("Content-Length", Decimal(|edited|))] + [("Cache-Control", "no-store")]
  }

  lemma {:induction false} WithoutStaleValues(hs: Headers, name: string)
    ensures Valued(WithoutStale(hs), name) == if name in STALE then [] else Valued(hs, name)
  {
    if hs != [] {
      WithoutStaleValues(hs[1..], name);
      var one := if Lower(hs[0].0) in STALE then [] else [hs[0]];
      ValuedAppend(one, WithoutStale(hs[1..]), name);
      ValuedOne(hs[0], name);
    }
  }

  lemma EditedNames()
    ensures Lower("Content-Length") == CONTENT_LENGTH
    ensures Lower("Cache-Control") == "cache-control"
  {
  }

  lemma StaleNames()
    ensures TRANSFER in STALE && CONTENT_LENGTH in STALE && "cache-control" in STALE
  {
    assert STALE[0] == CONTENT_LENGTH && STALE[1] == TRANSFER && STALE[4] == "cache-control";
  }

  lemma EditedValues(hs: Headers, edited: Bytes, name: string)
    ensures Valued(EditedHeaders(hs, edited), name)
         == (if name in STALE then [] else Valued(hs, name))
            + (if name == CONTENT_LENGTH then [Decimal(|edited|)] else [])
            + (if name == "cache-control" then ["no-store"] else [])
  {
    var kept := WithoutStale(hs);
    var length, cache := ("Content-Length", Decimal(|edited|)), ("Cache-Control", "no-store");
    WithoutStaleValues(hs, name);
    EditedNames();
    ValuedAppend(kept, [length], name);
    ValuedAppend(kept + [length], [cache], name);
    ValuedOne(length, name);
    ValuedOne(cache, name);
  }

  lemma {:induction false} DigitsAreOneToken(s: string)
    requires AllDigits(s)
    ensures Tokens(s) == [s]
  {
    LacksCuts(s, ',');
    FindNone(s, ",");
    assert Split(s, ",") == [s] && [s][1..] == [];
    assert Lower(s) == s && Stripped(s, SPACES);
    StripStripped(s, SPACES);
    assert TokensOf([s]) == [s] + TokensOf([]);
  }

  lemma StaleAreGone(hs: Headers, edited: Bytes, name: string)
    requires name in STALE && name != CONTENT_LENGTH && name != "cache-control"
    ensures Valued(EditedHeaders(hs, edited), name) == []
  {
    EditedValues(hs, edited, name);
  }

  lemma LengthIsNew(hs: Headers, edited: Bytes, name: string)
    requires name in STALE && name == CONTENT_LENGTH && name != "cache-control"
    ensures Valued(EditedHeaders(hs, edited), name) == [Decimal(|edited|)]
  {
    EditedValues(hs, edited, name);
  }

  lemma NamesByLength(name: string, other: string)
    requires |name| != |other|
    ensures name != other
  {
  }

  lemma NoTransferCoding(hs: Headers, edited: Bytes)
    ensures Valued(EditedHeaders(hs, edited), TRANSFER) == []
  {
    StaleNames();
    NamesByLength(TRANSFER, CONTENT_LENGTH);
    NamesByLength(TRANSFER, "cache-control");
    StaleAreGone(hs, edited, TRANSFER);
  }

  lemma LengthIsStale(name: string)
    requires name == CONTENT_LENGTH
    ensures name in STALE && name != "cache-control"
  {
    assert STALE[0] == name;
    NamesByLength(name, "cache-control");
  }

  lemma OneContentLength(hs: Headers, edited: Bytes)
    ensures Valued(EditedHeaders(hs, edited), CONTENT_LENGTH) == [Decimal(|edited|)]
  {
    LengthIsStale(CONTENT_LENGTH);
    LengthIsNew(hs, edited, CONTENT_LENGTH);
  }

  /** The edited document is framed by its own length, whatever the original said. */
  lemma EditedFraming(hs: Headers, edited: Bytes, side: Side)
    requires side.Response? && !Bodyless(side)
    ensures FramingOf(EditedHeaders(hs, edited), side) == Ok(Length(|edited|))
  {
    var n := Decimal(|edited|);
    NoTransferCoding(hs, edited);
    OneContentLength(hs, edited);
    DecimalRoundTrip(|edited|);
    DigitsAreOneToken(n);
    assert Listed([]) == [] && [n][1..] == [];
    assert Listed([n]) == Tokens(n) + Listed([]) == [n];
  }
}
