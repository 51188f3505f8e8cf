/** The HTTP/1.1 codec of DeepSeerLib/src/Http/Http1/Codec.cpp: the head printer, and the llhttp
    callbacks that rebuild a head from spans delivered in arbitrary fragments.  llhttp itself is
    represented by the grammar of RFC 9112, sections 3 to 5: it finds the spans of a head and reports
    each of them in one or more pieces. */
module Http1 {
  import opened HeaderMaps
  import opened Wrappers

  datatype Method = GET | POST | PUT | DELETE | PATCH | HEAD | OPTIONS | CONNECT | TRACE | UNKNOWN

  datatype Version = Version(major: nat, minor: nat)

  /** A message head: what encodeRequest and encodeResponse print. */
  datatype Head =
    | Request(verb: Method, url: string, version: Version, headers: seq<Header>)
    | Response(status: nat, reason: string, version: Version, headers: seq<Header>)

  // ---------------------------------------------------------------- printing

  function MethodName(m: Method): string {
    match m
    case GET => "GET" case POST => "POST" case PUT => "PUT" case DELETE => "DELETE" case PATCH => "PATCH"
    case HEAD => "HEAD" case OPTIONS => "OPTIONS" case CONNECT => "CONNECT" case TRACE => "TRACE" case UNKNOWN => "UNKNOWN"
  }

  function MethodOf(s: string): Method {
    if s == "GET" then GET else if s == "POST" then POST else if s == "PUT" then PUT
    else if s == "DELETE" then DELETE else if s == "PATCH" then PATCH else if s == "HEAD" then HEAD
    else if s == "OPTIONS" then OPTIONS else if s == "CONNECT" then CONNECT else if s == "TRACE" then TRACE
    else UNKNOWN
  }

  /** A verb is known exactly under its own name. */
  lemma MethodOfExactly(s: string, m: Method)
    requires m != UNKNOWN
    ensures MethodOf(s) == m <==> s == MethodName(m)
  {
  }

  function Digit(n: nat): char
    requires n < 10
  {
    ('0' as int + n) as char
  }

  /** std::format("{}", n). */
  function Decimal(n: nat): string {
    if n < 10 then [Digit(n)] else Decimal(n / 10) + [Digit(n % 10)]
  }

  function VersionText(v: Version): string {
    "HTTP/" + Decimal(v.major) + "." + Decimal(v.minor)
  }

  function StartLine(h: Head): string {
    match h
    case Request(m, url, v, _) => MethodName(m) + " " + url + " " + VersionText(v) + "\r\n"
    case Response(status, reason, v, _) => VersionText(v) + " " + Decimal(status) + " " + reason + "\r\n"
  }

  function HeaderLine(h: Header): string { h.name + ": " + h.value + "\r\n" }

  function HeaderLines(hs: seq<Header>): string {
    if hs == [] then "" else HeaderLine(hs[0]) + HeaderLines(hs[1..])
  }

  function Encode(h: Head): string { StartLine(h) + HeaderLines(h.headers) + "\r\n" }

  function EncodeAll(hs: seq<Head>): string {
    if hs == [] then "" else Encode(hs[0]) + EncodeAll(hs[1..])
  }

  /** What heads look like on the wire. */
  lemma Printed(url: string, name: string, value: string, reason: string)
    ensures Encode(Request(GET, url, Version(1, 1), [Header(name, value)])) ==
            "GET " + url + " HTTP/1.1\r\n" + name + ": " + value + "\r\n\r\n"
    ensures Encode(Response(200, reason, Version(1, 0), [])) == "HTTP/1.0 200 " + reason + "\r\n\r\n"
  {
    var h := Header(name, value);
    assert [h][1..] == [];
    assert HeaderLines([h]) == HeaderLine(h) + "";
    assert Decimal(1) == "1" && Decimal(0) == "0" && VersionText(Version(1, 1)) == "HTTP/1.1" && VersionText(Version(1, 0)) == "HTTP/1.0";
    assert Decimal(200) == Decimal(20) + "0" == Decimal(2) + "0" + "0" == "200";
    assert "\r\n" + "\r\n" == "\r\n\r\n";
    Parts("GET " + url + " HTTP/1.1" + "\r\n", name + ": " + value);
    assert StartLine(Request(GET, url, Version(1, 1), [h])) == "GET " + url + " HTTP/1.1" + "\r\n";
    assert " HTTP/1.1" + "\r\n" == " HTTP/1.1\r\n";
  }

  lemma Parts(start: string, line: string)
    ensures start + (line + "\r\n" + "") + "\r\n" == start + line + "\r\n\r\n"
  {
  }

  // ---------------------------------------------------------------- well-formed heads

  predicate Plain(s: string) { '\r' !in s && '\n' !in s }

  predicate Blank(c: char) { c == ' ' || c == '\t' }

  /** field-name: a non-empty token; field-value: no line break, no outer blanks. */
  predicate GoodHeader(h: Header) {
    && h.name != "" && ':' !in h.name && Plain(h.name) && ' ' !in h.name
    && Plain(h.value) && (h.value != "" ==> !Blank(h.value[0]) && !Blank(h.value[|h.value| - 1]))
  }

  predicate GoodHead(h: Head) {
    && h.version.major < 10 && h.version.minor < 10
    && Sorted(h.headers) && (forall i :: 0 <= i < |h.headers| ==> GoodHeader(h.headers[i]))
    && match h
       case Request(m, url, _, _) => m != UNKNOWN && url != "" && Plain(url) && ' ' !in url
       case Response(status, reason, _, _) => 100 <= status < 1000 && Plain(reason)
  }

  // ---------------------------------------------------------------- the grammar llhttp follows

  /** The text before and after the first occurrence of c. */
  function Cut(s: string, c: char): (r: Option<(string, string)>)
    ensures r.Some? ==> s == r.value.0 + [c] + r.value.1 && c !in r.value.0
  {
    if s == "" then None
    else if s[0] == c then Some(("", s[1..]))
    else match Cut(s[1..], c)
      case None => None
      case Some((before, after)) => Some(([s[0]] + before, after))
  }

  /** The text up to a CRLF and behind it. */
  function CutLine(s: string): Option<(string, string)> {
    match Cut(s, '\r')
    case None => None
    case Some((line, after)) => if after != "" && after[0] == '\n' then Some((line, after[1..])) else None
  }

  function TrimLeft(s: string): string {
    if s != "" && Blank(s[0]) then TrimLeft(s[1..]) else s
  }

  function TrimRight(s: string): string {
    if s != "" && Blank(s[|s| - 1]) then TrimRight(s[..|s| - 1]) else s
  }

  function ParseDigit(c: char): Option<nat> {
    if '0' <= c <= '9' then Some(c as int - '0' as int) else None
  }

  /** HTTP-version = "HTTP/" DIGIT "." DIGIT */
  function ParseVersion(s: string): Option<Version> {
    if |s| == 8 && s[..5] == "HTTP/" && s[6] == '.' && ParseDigit(s[5]).Some? && ParseDigit(s[7]).Some?
    then Some(Version(ParseDigit(s[5]).value, ParseDigit(s[7]).value)) else None
  }

  /** status-code = 3DIGIT */
  function ParseStatus(s: string): Option<nat> {
    if |s| == 3 && ParseDigit(s[0]).Some? && ParseDigit(s[1]).Some? && ParseDigit(s[2]).Some?
    then Some(100 * ParseDigit(s[0]).value + 10 * ParseDigit(s[1]).value + ParseDigit(s[2]).value) else None
  }

  /** A head as the parser sees it: start line and raw field lines, in order. */
  datatype Tokens = Tokens(verb: string, target: string, status: nat, reason: string, version: Version, fields: seq<Header>)

  function ParseStart(isRequest: bool, line: string): Option<Tokens> {
    match Cut(line, ' ')
    case None => None
    case Some((first, after)) =>
      match Cut(after, ' ')
      case None => None
      case Some((second, third)) =>
        if isRequest then
          match ParseVersion(third)
          case None => None
          case Some(v) => Some(Tokens(first, second, 0, "", v, []))
        else if ParseVersion(first).None? || ParseStatus(second).None? then None
        else Some(Tokens("", "", ParseStatus(second).value, third, ParseVersion(first).value, []))
  }

  function ParseField(line: string): Option<Header> {
    match Cut(line, ':')
    case None => None
    case Some((name, value)) => if name == "" then None else Some(Header(name, TrimRight(TrimLeft(value))))
  }

  /** Field lines up to the empty line. */
  function ParseFields(s: string): Option<(seq<Header>, string)>
    decreases |s|
  {
    match CutLine(s)
    case None => None
    case Some((line, after)) =>
      if line == "" then Some(([], after))
      else if ParseField(line).None? then None
      else match ParseFields(after)
        case None => None
        case Some((fields, rest)) => Some(([ParseField(line).value] + fields, rest))
  }

  function ParseHead(isRequest: bool, s: string): Option<(Tokens, string)> {
    match CutLine(s)
    case None => None
    case Some((line, after)) =>
      match ParseStart(isRequest, line)
      case None => None
      case Some(start) =>
        match ParseFields(after)
        case None => None
        case Some((fields, rest)) => Some((start.(fields := fields), rest))
  }

  /** n heads in a row. */
  function ParseHeads(isRequest: bool, s: string, n: nat): Option<(seq<Tokens>, string)>
    decreases n
  {
    if n == 0 then Some(([], s))
    else match ParseHead(isRequest, s)
      case None => None
      case Some((t, after)) =>
        match ParseHeads(isRequest, after, n - 1)
        case None => None
        case Some((ts, rest)) => Some(([t] + ts, rest))
  }

  // ---------------------------------------------------------------- parsing what was printed

  lemma {:induction false} CutAt(a: string, c: char, b: string)
    requires c !in a
    ensures Cut(a + [c] + b, c) == Some((a, b))
  {
    var s := a + [c] + b;
    if a == "" {
      assert s[1..] == b;
    } else {
      assert s[1..] == a[1..] + [c] + b;
      CutAt(a[1..], c, b);
      assert [a[0]] + a[1..] == a;
    }
  }

  lemma CutLineAt(line: string, after: string)
    requires '\r' !in line
    ensures CutLine(line + "\r\n" + after) == Some((line, after))
  {
    assert line + "\r\n" + after == line + ['\r'] + ("\n" + after);
    CutAt(line, '\r', "\n" + after);
    assert ("\n" + after)[1..] == after;
  }

  lemma DecimalDigit(n: nat)
    requires n < 10
    ensures ParseDigit(Digit(n)) == Some(n) && !Blank(Digit(n)) && Plain([Digit(n)]) && Decimal(n) == [Digit(n)]
  {
  }

  lemma VersionRoundTrip(v: Version)
    requires v.major < 10 && v.minor < 10
    ensures ParseVersion(VersionText(v)) == Some(v) && ' ' !in VersionText(v) && Plain(VersionText(v))
  {
    DecimalDigit(v.major);
    DecimalDigit(v.minor);
    assert VersionText(v) == ['H', 'T', 'T', 'P', '/', Digit(v.major), '.', Digit(v.minor)];
  }

  lemma StatusRoundTrip(n: nat)
    requires 100 <= n < 1000
    ensures ParseStatus(Decimal(n)) == Some(n) && ' ' !in Decimal(n) && Plain(Decimal(n))
  {
    DecimalDigit(n / 100);
    DecimalDigit(n / 10 % 10);
    DecimalDigit(n % 10);
    assert Decimal(n / 10) == Decimal(n / 10 / 10) + [Digit(n / 10 % 10)];
    assert n / 10 / 10 == n / 100;
    assert Decimal(n) == [Digit(n / 100), Digit(n / 10 % 10), Digit(n % 10)];
  }

  lemma MethodRoundTrip(m: Method)
    ensures MethodOf(MethodName(m)) == m && ' ' !in MethodName(m) && Plain(MethodName(m))
  {
  }

  /** The tokens of a head. */
  function TokensOf(h: Head): Tokens {
    match h
    case Request(m, url, v, hs) => Tokens(MethodName(m), url, 0, "", v, hs)
    case Response(status, reason, v, hs) => Tokens("", "", status, reason, v, hs)
  }

  lemma TwoCuts(a: string, b: string, c: string)
    requires ' ' !in a && ' ' !in b
    ensures var s := a + " " + b + " " + c; Cut(s, ' ') == Some((a, b + " " + c))
    ensures Cut(b + " " + c, ' ') == Some((b, c))
  {
    assert a + " " + b + " " + c == a + [' '] + (b + " " + c);
    CutAt(a, ' ', b + " " + c);
    CutAt(b, ' ', c);
  }

  function StartText(h: Head): string {
    match h
    case Request(m, url, v, _) => MethodName(m) + " " + url + " " + VersionText(v)
    case Response(status, reason, v, _) => VersionText(v) + " " + Decimal(status) + " " + reason
  }

  lemma PlainJoin(a: string, b: string, c: string)
    requires Plain(a) && Plain(b) && Plain(c)
    ensures Plain(a + " " + b + " " + c)
  {
  }

  lemma StartRoundTrip(h: Head)
    requires GoodHead(h)
    ensures StartLine(h) == StartText(h) + "\r\n" && Plain(StartText(h))
    ensures ParseStart(h.Request?, StartText(h)) == Some(TokensOf(h).(fields := []))
  {
    VersionRoundTrip(h.version);
    match h
    case Request(m, url, v, _) =>
      MethodRoundTrip(m);
      TwoCuts(MethodName(m), url, VersionText(v));
      PlainJoin(MethodName(m), url, VersionText(v));
    case Response(status, reason, v, _) =>
      StatusRoundTrip(status);
      TwoCuts(VersionText(v), Decimal(status), reason);
      PlainJoin(VersionText(v), Decimal(status), reason);
  }

  lemma FieldRoundTrip(h: Header)
    requires GoodHeader(h)
    ensures ParseField(h.name + ": " + h.value) == Some(h)
    ensures Plain(h.name + ": " + h.value) && h.name + ": " + h.value != ""
  {
    assert h.name + ": " + h.value == h.name + [':'] + (" " + h.value);
    CutAt(h.name, ':', " " + h.value);
    assert (" " + h.value)[1..] == h.value;
    assert TrimLeft(" " + h.value) == TrimLeft(h.value) == h.value;
    assert TrimRight(h.value) == h.value;
  }

  lemma {:induction false} FieldsRoundTrip(hs: seq<Header>, rest: string)
    requires forall i :: 0 <= i < |hs| ==> GoodHeader(hs[i])
    ensures ParseFields(HeaderLines(hs) + "\r\n" + rest) == Some((hs, rest))
  {
    if hs == [] {
      assert HeaderLines(hs) + "\r\n" + rest == "" + "\r\n" + rest;
      CutLineAt("", rest);
    } else {
      var line := hs[0].name + ": " + hs[0].value;
      var after := HeaderLines(hs[1..]) + "\r\n" + rest;
      assert HeaderLines(hs) + "\r\n" + rest == line + "\r\n" + after;
      FieldRoundTrip(hs[0]);
      CutLineAt(line, after);
      FieldsRoundTrip(hs[1..], rest);
      assert hs == [hs[0]] + hs[1..];
    }
  }

  lemma RegroupHead(a: string, b: string, c: string, d: string)
    ensures a + b + c + d == a + (b + c + d)
  {
  }

  /** A printed head parses into its tokens, leaving exactly what follows it. */
  lemma HeadRoundTrip(h: Head, rest: string)
    requires GoodHead(h)
    ensures ParseHead(h.Request?, Encode(h) + rest) == Some((TokensOf(h), rest))
  {
    StartRoundTrip(h);
    var after := HeaderLines(h.headers) + "\r\n" + rest;
    RegroupHead(StartText(h) + "\r\n", HeaderLines(h.headers), "\r\n", rest);
    CutLineAt(StartText(h), after);
    FieldsRoundTrip(h.headers, rest);
  }

  function TokensOfAll(hs: seq<Head>): seq<Tokens> {
    if hs == [] then [] else [TokensOf(hs[0])] + TokensOfAll(hs[1..])
  }

  predicate GoodHeads(isRequest: bool, hs: seq<Head>) {
    forall i :: 0 <= i < |hs| ==> GoodHead(hs[i]) && hs[i].Request? == isRequest
  }

  lemma ParseNext(isRequest: bool, s: string, n: nat, t: Tokens, rest: string, ts: seq<Tokens>)
    requires n > 0 && ParseHead(isRequest, s) == Some((t, rest)) && ParseHeads(isRequest, rest, n - 1) == Some((ts, ""))
    ensures ParseHeads(isRequest, s, n) == Some(([t] + ts, ""))
  {
  }

  lemma {:induction false} HeadsRoundTrip(isRequest: bool, hs: seq<Head>)
    requires GoodHeads(isRequest, hs)
    ensures ParseHeads(isRequest, EncodeAll(hs), |hs|) == Some((TokensOfAll(hs), ""))
  {
    if hs != [] {
      var rest := EncodeAll(hs[1..]);
      HeadRoundTrip(hs[0], rest);
      HeadsRoundTrip(isRequest, hs[1..]);
      ParseNext(isRequest, Encode(hs[0]) + rest, |hs|, TokensOf(hs[0]), rest, TokensOfAll(hs[1..]));
    }
  }

  // ---------------------------------------------------------------- the callbacks

  /** What llhttp reports. */
  datatype Event =
    | MessageBegin
    | UrlPiece(s: string)
    | StatusPiece(s: string)
    | FieldPiece(s: string)
    | ValuePiece(s: string)
    | HeadersComplete(verb: string, status: nat, version: Version)
    | BodyPiece(s: string)
    | MessageComplete

  /** The parse state of the codec, and the heads it has passed on. */
  datatype Codec = Codec(
    url: string,
    reason: string,
    requestHeaders: seq<Header>,
    responseHeaders: seq<Header>,
    field: string,
    value: string,
    inValue: bool,
    emitted: seq<Head>)

  function FinishHeader(c: Codec, isRequest: bool): Codec {
    if c.field == "" then c
    else if isRequest then c.(requestHeaders := Put(c.requestHeaders, c.field, c.value), field := "", value := "")
    else c.(responseHeaders := Put(c.responseHeaders, c.field, c.value), field := "", value := "")
  }

  function On(c: Codec, isRequest: bool, e: Event): Codec {
    match e
    case MessageBegin => Codec("", "", [], [], "", "", false, c.emitted)
    case UrlPiece(s) => c.(url := c.url + s)
    case StatusPiece(s) => c.(reason := c.reason + s)
    case FieldPiece(s) =>
      var d := if c.inValue then FinishHeader(c, isRequest) else c;
      d.(field := d.field + s, inValue := false)
    case ValuePiece(s) => c.(value := c.value + s, inValue := true)
    case HeadersComplete(verb, status, v) =>
      var d := FinishHeader(c, isRequest);
      d.(emitted := d.emitted +
        [if isRequest then Request(MethodOf(verb), d.url, v, d.requestHeaders)
         else Response(status, d.reason, v, d.responseHeaders)])
    case BodyPiece(_) => c
    case MessageComplete => c
  }

  function Feed(c: Codec, isRequest: bool, es: seq<Event>): Codec
    decreases |es|
  {
    if es == [] then c else Feed(On(c, isRequest, es[0]), isRequest, es[1..])
  }

  lemma {:induction false} FeedAppend(c: Codec, isRequest: bool, a: seq<Event>, b: seq<Event>)
    ensures Feed(c, isRequest, a + b) == Feed(Feed(c, isRequest, a), isRequest, b)
    decreases |a|
  {
    if a == [] {
      assert a + b == b;
    } else {
      assert (a + b)[1..] == a[1..] + b;
      FeedAppend(On(c, isRequest, a[0]), isRequest, a[1..], b);
    }
  }

  // ---------------------------------------------------------------- fragmentation

  function Joined(pieces: seq<string>): string {
    if pieces == [] then "" else pieces[0] + Joined(pieces[1..])
  }

  function Starts(isRequest: bool, pieces: seq<string>): seq<Event> {
    if pieces == [] then []
    else [if isRequest then UrlPiece(pieces[0]) else StatusPiece(pieces[0])] + Starts(isRequest, pieces[1..])
  }

  function Names(pieces: seq<string>): seq<Event> {
    if pieces == [] then [] else [FieldPiece(pieces[0])] + Names(pieces[1..])
  }

  function Values(pieces: seq<string>): seq<Event> {
    if pieces == [] then [] else [ValuePiece(pieces[0])] + Values(pieces[1..])
  }

  /** How the spans of one head are cut: pieces of the target or reason, and of each name and value. */
  datatype Pieces = Pieces(start: seq<string>, names: seq<seq<string>>, values: seq<seq<string>>)

  /** The pieces make up the spans; a name and a value, even an empty one, are reported at least once. */
  predicate Cuts(isRequest: bool, t: Tokens, p: Pieces) {
    && Joined(p.start) == (if isRequest then t.target else t.reason)
    && |p.names| == |p.values| == |t.fields|
    && forall i :: 0 <= i < |t.fields| ==>
         && p.names[i] != [] && Joined(p.names[i]) == t.fields[i].name
         && p.values[i] != [] && Joined(p.values[i]) == t.fields[i].value
  }

  function FieldEvents(names: seq<seq<string>>, values: seq<seq<string>>): seq<Event>
    requires |names| == |values|
  {
    if names == [] then [] else Names(names[0]) + Values(values[0]) + FieldEvents(names[1..], values[1..])
  }

  function HeadEvents(isRequest: bool, t: Tokens, p: Pieces): seq<Event>
    requires |p.names| == |p.values|
  {
    [MessageBegin] + Starts(isRequest, p.start) + FieldEvents(p.names, p.values)
    + [HeadersComplete(t.verb, t.status, t.version)]
  }

  lemma {:induction false} FeedStarts(c: Codec, isRequest: bool, pieces: seq<string>)
    ensures Feed(c, isRequest, Starts(isRequest, pieces)) ==
            if isRequest then c.(url := c.url + Joined(pieces)) else c.(reason := c.reason + Joined(pieces))
    decreases |pieces|
  {
    if pieces == [] {
      assert c.url + "" == c.url && c.reason + "" == c.reason;
    } else if isRequest {
      FeedStarts(c.(url := c.url + pieces[0]), isRequest, pieces[1..]);
      assert c.url + pieces[0] + Joined(pieces[1..]) == c.url + Joined(pieces);
    } else {
      FeedStarts(c.(reason := c.reason + pieces[0]), isRequest, pieces[1..]);
      assert c.reason + pieces[0] + Joined(pieces[1..]) == c.reason + Joined(pieces);
    }
  }

  lemma {:induction false} FeedNames(c: Codec, isRequest: bool, pieces: seq<string>)
    requires !c.inValue
    ensures Feed(c, isRequest, Names(pieces)) == c.(field := c.field + Joined(pieces))
    decreases |pieces|
  {
    if pieces == [] {
      assert c.field + "" == c.field;
    } else {
      var d := On(c, isRequest, FieldPiece(pieces[0]));
      FeedNames(d, isRequest, pieces[1..]);
      assert c.field + pieces[0] + Joined(pieces[1..]) == c.field + Joined(pieces);
    }
  }

  lemma {:induction false} FeedValues(c: Codec, isRequest: bool, pieces: seq<string>)
    requires pieces != [] || c.inValue
    ensures Feed(c, isRequest, Values(pieces)) == c.(value := c.value + Joined(pieces), inValue := true)
    decreases |pieces|
  {
    if pieces == [] {
      assert c.value + "" == c.value;
    } else {
      var d := On(c, isRequest, ValuePiece(pieces[0]));
      FeedValues(d, isRequest, pieces[1..]);
      assert c.value + pieces[0] + Joined(pieces[1..]) == c.value + Joined(pieces);
    }
  }

  /** Between field lines: a complete header is pending, or none has been seen since the start. */
  predicate AtLineEnd(c: Codec) {
    if c.inValue then c.field != "" else c.field == "" && c.value == ""
  }

  /** The headers once the pending one is counted in. */
  function Settled(c: Codec, isRequest: bool): seq<Header> {
    var d := FinishHeader(c, isRequest);
    if isRequest then d.requestHeaders else d.responseHeaders
  }

  /** One field line, however cut, sets one header. */
  lemma FeedField(c: Codec, isRequest: bool, names: seq<string>, values: seq<string>)
    requires AtLineEnd(c) && names != [] && values != [] && Joined(names) != ""
    ensures var d := Feed(c, isRequest, Names(names) + Values(values));
            && AtLineEnd(d) && d.url == c.url && d.reason == c.reason && d.emitted == c.emitted
            && Settled(d, isRequest) == Put(Settled(c, isRequest), Joined(names), Joined(values))
  {
    FeedAppend(c, isRequest, Names(names), Values(values));
    var first := On(c, isRequest, FieldPiece(names[0]));
    assert Names(names)[1..] == Names(names[1..]);
    FeedNames(first, isRequest, names[1..]);
    var named := Feed(c, isRequest, Names(names));
    assert "" + names[0] + Joined(names[1..]) == Joined(names);
    assert named.field == Joined(names) && named.value == "" && !named.inValue;
    FeedValues(named, isRequest, values);
    assert "" + Joined(values) == Joined(values);
  }

  lemma {:induction false} FeedFields(c: Codec, isRequest: bool, fields: seq<Header>, names: seq<seq<string>>, values: seq<seq<string>>)
    requires AtLineEnd(c) && |names| == |values| == |fields|
    requires forall i :: 0 <= i < |fields| ==> fields[i].name != ""
    requires forall i :: 0 <= i < |fields| ==> names[i] != [] && Joined(names[i]) == fields[i].name
    requires forall i :: 0 <= i < |fields| ==> values[i] != [] && Joined(values[i]) == fields[i].value
    ensures var d := Feed(c, isRequest, FieldEvents(names, values));
            && AtLineEnd(d) && d.url == c.url && d.reason == c.reason && d.emitted == c.emitted
            && Settled(d, isRequest) == PutAll(Settled(c, isRequest), fields)
    decreases |fields|
  {
    if fields != [] {
      var line := Names(names[0]) + Values(values[0]);
      var rest := FieldEvents(names[1..], values[1..]);
      FeedAppend(c, isRequest, line, rest);
      FeedField(c, isRequest, names[0], values[0]);
      FeedFields(Feed(c, isRequest, line), isRequest, fields[1..], names[1..], values[1..]);
    }
  }

  /** What the codec makes of a head: its headers are set one by one. */
  function Rebuilt(isRequest: bool, t: Tokens): Head {
    if isRequest then Request(MethodOf(t.verb), t.target, t.version, PutAll([], t.fields))
    else Response(t.status, t.reason, t.version, PutAll([], t.fields))
  }

  lemma FeedOpening(c: Codec, isRequest: bool, start: seq<string>)
    ensures var d := Feed(c, isRequest, [MessageBegin] + Starts(isRequest, start));
            && AtLineEnd(d) && Settled(d, isRequest) == [] && d.emitted == c.emitted
            && (if isRequest then d.url else d.reason) == Joined(start)
  {
    FeedAppend(c, isRequest, [MessageBegin], Starts(isRequest, start));
    FeedOne(c, isRequest, MessageBegin);
    FeedStarts(On(c, isRequest, MessageBegin), isRequest, start);
    assert "" + Joined(start) == Joined(start);
  }

  /** From any state, with anything left over from earlier messages, one head however cut makes the
      codec pass on exactly that head. */
  lemma FeedHead(c: Codec, isRequest: bool, t: Tokens, p: Pieces)
    requires Cuts(isRequest, t, p) && forall i :: 0 <= i < |t.fields| ==> t.fields[i].name != ""
    ensures Feed(c, isRequest, HeadEvents(isRequest, t, p)).emitted == c.emitted + [Rebuilt(isRequest, t)]
  {
    var opening, fields := [MessageBegin] + Starts(isRequest, p.start), FieldEvents(p.names, p.values);
    var done := HeadersComplete(t.verb, t.status, t.version);
    FeedAppend(c, isRequest, opening + fields, [done]);
    FeedAppend(c, isRequest, opening, fields);
    FeedOpening(c, isRequest, p.start);
    var ready := Feed(c, isRequest, opening);
    FeedFields(ready, isRequest, t.fields, p.names, p.values);
    FeedOne(Feed(ready, isRequest, fields), isRequest, done);
  }

  lemma FeedOne(c: Codec, isRequest: bool, e: Event)
    ensures Feed(c, isRequest, [e]) == On(c, isRequest, e)
  {
    assert [e][1..] == [];
  }

  /** Body pieces and message ends pass nothing on and leave the parse state alone. */
  predicate Tail(es: seq<Event>) { forall i :: 0 <= i < |es| ==> es[i].BodyPiece? || es[i].MessageComplete? }

  lemma {:induction false} FeedTail(c: Codec, isRequest: bool, es: seq<Event>)
    requires Tail(es)
    ensures Feed(c, isRequest, es) == c
    decreases |es|
  {
    if es != [] { FeedTail(c, isRequest, es[1..]); }
  }

  predicate AllCut(isRequest: bool, ts: seq<Tokens>, ps: seq<Pieces>) {
    |ts| == |ps| && forall i :: 0 <= i < |ts| ==> Cuts(isRequest, ts[i], ps[i])
  }

  predicate AllTails(tails: seq<seq<Event>>) { forall i :: 0 <= i < |tails| ==> Tail(tails[i]) }

  /** The events of several messages: each head cut in its own way and followed by its own body. */
  function StreamEvents(isRequest: bool, ts: seq<Tokens>, ps: seq<Pieces>, tails: seq<seq<Event>>): seq<Event>
    requires AllCut(isRequest, ts, ps) && |ts| == |tails|
  {
    if ts == [] then []
    else
      assert Cuts(isRequest, ts[0], ps[0]);
      HeadEvents(isRequest, ts[0], ps[0]) + tails[0] + StreamEvents(isRequest, ts[1..], ps[1..], tails[1..])
  }

  lemma GoodHeadRebuilt(h: Head)
    requires GoodHead(h)
    ensures Rebuilt(h.Request?, TokensOf(h)) == h
  {
    assert [] + h.headers == h.headers;
    PutAllRebuilds([], h.headers);
    if h.Request? { MethodRoundTrip(h.verb); }
  }

  lemma FeedMessage(c: Codec, h: Head, p: Pieces, tail: seq<Event>)
    requires GoodHead(h) && Cuts(h.Request?, TokensOf(h), p) && Tail(tail)
    ensures Feed(c, h.Request?, HeadEvents(h.Request?, TokensOf(h), p) + tail).emitted == c.emitted + [h]
  {
    var head := HeadEvents(h.Request?, TokensOf(h), p);
    FeedAppend(c, h.Request?, head, tail);
    FeedHead(c, h.Request?, TokensOf(h), p);
    GoodHeadRebuilt(h);
    FeedTail(Feed(c, h.Request?, head), h.Request?, tail);
  }

  lemma {:induction false} FeedStream(c: Codec, isRequest: bool, hs: seq<Head>, ps: seq<Pieces>, tails: seq<seq<Event>>)
    requires GoodHeads(isRequest, hs) && |hs| == |tails|
    requires AllCut(isRequest, TokensOfAll(hs), ps) && |hs| == |TokensOfAll(hs)| && AllTails(tails)
    ensures Feed(c, isRequest, StreamEvents(isRequest, TokensOfAll(hs), ps, tails)).emitted == c.emitted + hs
    decreases |hs|
  {
    if hs == [] {
      assert c.emitted + hs == c.emitted;
    } else {
      var ts := TokensOfAll(hs);
      assert ts[0] == TokensOf(hs[0]) && ts[1..] == TokensOfAll(hs[1..]);
      assert Cuts(isRequest, ts[0], ps[0]);
      FeedMessage(c, hs[0], ps[0], tails[0]);
      var d := FeedFirst(c, isRequest, ts, ps, tails);
      FeedStream(d, isRequest, hs[1..], ps[1..], tails[1..]);
      JoinFirst(c.emitted, hs);
    }
  }

  lemma JoinFirst<T>(a: seq<T>, b: seq<T>)
    requires b != []
    ensures a + [b[0]] + b[1..] == a + b
  {
  }

  /** The stream up to the end of its first message, then the rest. */
  lemma FeedFirst(c: Codec, isRequest: bool, ts: seq<Tokens>, ps: seq<Pieces>, tails: seq<seq<Event>>) returns (d: Codec)
    requires AllCut(isRequest, ts, ps) && |ts| == |tails| && ts != [] && Cuts(isRequest, ts[0], ps[0])
    ensures d == Feed(c, isRequest, HeadEvents(isRequest, ts[0], ps[0]) + tails[0])
    ensures Feed(c, isRequest, StreamEvents(isRequest, ts, ps, tails)) ==
            Feed(d, isRequest, StreamEvents(isRequest, ts[1..], ps[1..], tails[1..]))
  {
    var first := HeadEvents(isRequest, ts[0], ps[0]) + tails[0];
    d := Feed(c, isRequest, first);
    FeedAppend(c, isRequest, first, StreamEvents(isRequest, ts[1..], ps[1..], tails[1..]));
  }

  lemma {:induction false} TokensCount(hs: seq<Head>)
    ensures |TokensOfAll(hs)| == |hs|
  {
    if hs != [] { TokensCount(hs[1..]); }
  }

  /** Head round trip: print any sequence of well-formed heads, let the grammar find the spans, report
      them in any pieces with any bodies in between, to a codec in any state: it passes on exactly the
      same heads, in order, with nothing leaking from one message into another. */
  lemma PrintParseRoundTrip(c: Codec, isRequest: bool, hs: seq<Head>, ps: seq<Pieces>, tails: seq<seq<Event>>)
    requires GoodHeads(isRequest, hs) && |hs| == |tails| && AllTails(tails)
    requires var parsed := ParseHeads(isRequest, EncodeAll(hs), |hs|);
             parsed.Some? ==> AllCut(isRequest, parsed.value.0, ps)
    ensures var parsed := ParseHeads(isRequest, EncodeAll(hs), |hs|);
            && parsed.Some? && parsed.value.1 == "" && |parsed.value.0| == |hs|
            && Feed(c, isRequest, StreamEvents(isRequest, parsed.value.0, ps, tails)).emitted == c.emitted + hs
  {
    HeadsRoundTrip(isRequest, hs);
    TokensCount(hs);
    FeedStream(c, isRequest, hs, ps, tails);
  }

  // ---------------------------------------------------------------- the codec object

  /** encodeRequest and encodeResponse: append the printed head to an output buffer. */
  method PrintHead(h: Head, out: string) returns (r: string)
    ensures r == out + Encode(h)
  {
    var lines := "";
    for i := 0 to |h.headers|
      invariant lines == HeaderLines(h.headers[..i])
    {
      LinesAppend(h.headers[..i], h.headers[i]);
      assert h.headers[..i + 1] == h.headers[..i] + [h.headers[i]];
      lines := lines + h.headers[i].name + ": " + h.headers[i].value + "\r\n";
      RegroupLine(HeaderLines(h.headers[..i]), h.headers[i].name, ": ", h.headers[i].value, "\r\n");
    }
    assert h.headers[..|h.headers|] == h.headers;
    r := out + (StartLine(h) + lines + "\r\n");
  }

  lemma RegroupLine(a: string, b: string, c: string, d: string, e: string)
    ensures a + b + c + d + e == a + (b + c + d + e)
  {
  }

  lemma {:induction false} LinesAppend(hs: seq<Header>, h: Header)
    ensures HeaderLines(hs + [h]) == HeaderLines(hs) + HeaderLine(h)
  {
    if hs == [] {
      assert hs + [h] == [h] && [h][1..] == [];
    } else {
      assert (hs + [h])[1..] == hs[1..] + [h];
      LinesAppend(hs[1..], h);
    }
  }

  /** Http1Codec with its parse state; the type of the parser decides where headers go. */
  class Http1Codec {
    const isRequest: bool
    var currentUrl: string
    var currentReason: string
    var requestHeaders: HeaderMap
    var responseHeaders: HeaderMap
    var currentHeaderField: string
    var currentHeaderValue: string
    var inHeaderValue: bool
    var emitted: seq<Head>

    ghost predicate Valid()
      reads this, requestHeaders, responseHeaders
    {
      requestHeaders != responseHeaders && requestHeaders.Valid() && responseHeaders.Valid()
    }

    ghost function State(): Codec
      reads this, requestHeaders, responseHeaders
    {
      Codec(currentUrl, currentReason, requestHeaders.headers, responseHeaders.headers,
            currentHeaderField, currentHeaderValue, inHeaderValue, emitted)
    }

    constructor (isRequest: bool)
      ensures Valid() && fresh(requestHeaders) && fresh(responseHeaders)
      ensures State() == Codec("", "", [], [], "", "", false, []) && this.isRequest == isRequest
    {
      this.isRequest := isRequest;
      currentUrl, currentReason, currentHeaderField, currentHeaderValue := "", "", "", "";
      inHeaderValue, emitted := false, [];
      requestHeaders := new HeaderMap();
      responseHeaders := new HeaderMap();
    }

    method FinishCurrent()
      requires Valid()
      modifies this, requestHeaders, responseHeaders
      ensures Valid() && State() == FinishHeader(old(State()), isRequest)
      ensures requestHeaders == old(requestHeaders) && responseHeaders == old(responseHeaders)
    {
      if currentHeaderField == "" { return; }
      if isRequest {
        requestHeaders.SetHeader(currentHeaderField, currentHeaderValue);
      } else {
        responseHeaders.SetHeader(currentHeaderField, currentHeaderValue);
      }
      currentHeaderField, currentHeaderValue := "", "";
    }

    /** Every callback takes the parse state where the specification says. */
    method Callback(e: Event)
      requires Valid()
      modifies this, requestHeaders, responseHeaders
      ensures Valid() && State() == On(old(State()), isRequest, e)
      ensures fresh({requestHeaders, responseHeaders} - old({requestHeaders, responseHeaders}))
    {
      match e
      case MessageBegin =>
        currentUrl, currentReason, currentHeaderField, currentHeaderValue, inHeaderValue := "", "", "", "", false;
        requestHeaders := new HeaderMap();
        responseHeaders := new HeaderMap();
      case UrlPiece(s) => currentUrl := currentUrl + s;
      case StatusPiece(s) => currentReason := currentReason + s;
      case FieldPiece(s) =>
        if inHeaderValue { FinishCurrent(); }
        currentHeaderField, inHeaderValue := currentHeaderField + s, false;
      case ValuePiece(s) => currentHeaderValue, inHeaderValue := currentHeaderValue + s, true;
      case HeadersComplete(verb, status, v) =>
        FinishCurrent();
        var head := if isRequest then Request(MethodOf(verb), currentUrl, v, requestHeaders.headers)
        else Response(status, currentReason, v, responseHeaders.headers);
        emitted := emitted + [head];
      case BodyPiece(_) =>
      case MessageComplete =>
    }

    /** A whole sequence of callbacks. */
    method Decode(es: seq<Event>)
      requires Valid()
      modifies this, requestHeaders, responseHeaders
      ensures Valid() && State() == Feed(old(State()), isRequest, es)
    {
      ghost var goal := Feed(State(), isRequest, es);
      for i := 0 to |es|
        invariant Valid() && Feed(State(), isRequest, es[i..]) == goal
        invariant fresh({requestHeaders, responseHeaders} - old({requestHeaders, responseHeaders}))
      {
        assert es[i..][1..] == es[i + 1..];
        Callback(es[i]);
      }
    }
  }

  lemma EncodeNext(text: string, hs: seq<Head>, i: nat)
    requires i < |hs|
    ensures text + EncodeAll(hs[i..]) == (text + Encode(hs[i])) + EncodeAll(hs[i + 1..])
  {
    var rest := EncodeAll(hs[i + 1..]);
    assert hs[i..][1..] == hs[i + 1..];
    assert EncodeAll(hs[i..]) == Encode(hs[i]) + rest;
    Concat3(text, Encode(hs[i]), rest);
  }

  lemma Concat3(a: string, b: string, c: string)
    ensures a + (b + c) == (a + b) + c
  {
  }

  /** The encoders, one head after the other. */
  method PrintHeads(hs: seq<Head>) returns (text: string)
    ensures text == EncodeAll(hs)
  {
    text := "";
    assert hs[0..] == hs;
    ghost var all := EncodeAll(hs);
    for i := 0 to |hs|
      invariant text + EncodeAll(hs[i..]) == all
    {
      EncodeNext(text, hs, i);
      text := PrintHead(hs[i], text);
    }
    assert text + "" == text;
  }

  /** The round trip through the encoders and a codec object that has seen anything before. */
  method Relay(codec: Http1Codec, hs: seq<Head>, ps: seq<Pieces>, tails: seq<seq<Event>>)
    requires codec.Valid() && GoodHeads(codec.isRequest, hs) && |hs| == |tails| && AllTails(tails)
    requires AllCut(codec.isRequest, TokensOfAll(hs), ps)
    modifies codec, codec.requestHeaders, codec.responseHeaders
    ensures codec.Valid() && codec.emitted == old(codec.emitted) + hs
  {
    HeadsRoundTrip(codec.isRequest, hs);
    PrintParseRoundTrip(codec.State(), codec.isRequest, hs, ps, tails);
    var text := PrintHeads(hs);
    var parsed := ParseHeads(codec.isRequest, text, |hs|);
    codec.Decode(StreamEvents(codec.isRequest, parsed.value.0, ps, tails));
  }
}
