/**
 The client's answer to one forwarded request: copy the upstream response into the two
 header maps, and rewrite an HTML body under its content coding.
 */
module ClientHandler {
  import opened Ascii
  import opened Protocol

  // Library code this model does not look into: coders, and the regular expression's
  // ReplaceAll.
  datatype Codecs = Codecs(
    gzip: Bytes -> Result<Bytes, string>, gunzip: Bytes -> Result<Bytes, string>,
    brotli: Bytes -> Result<Bytes, string>, unbrotli: Bytes -> Result<Bytes, string>,
    replaceAll: (Bytes, Bytes) -> Bytes)

  datatype Coding = Plain | Gzip | Brotli

  // The coding a response declares, as the rewriter understands it.
  function Declared(contentHeaders: map<string, string>): Coding {
    if "Content-Encoding" !in contentHeaders then Plain
    else if contentHeaders["Content-Encoding"] == "br" then Brotli
    else if contentHeaders["Content-Encoding"] == "gzip" then Gzip
    else Plain
  }

  function Decode(codecs: Codecs, coding: Coding, body: Bytes): Result<Bytes, string> {
    match coding
    case Plain => Ok(body)
    case Gzip => codecs.gunzip(body)
    case Brotli => codecs.unbrotli(body)
  }

  function Encode(codecs: Codecs, coding: Coding, body: Bytes): Result<Bytes, string> {
    match coding
    case Plain => Ok(body)
    case Gzip => codecs.gzip(body)
    case Brotli => codecs.brotli(body)
  }

  // Decompressing undoes compressing; nothing else is known of the coders.
  ghost predicate Lawful(codecs: Codecs) {
    forall coding: Coding, body: Bytes ::
      Encode(codecs, coding, body).Ok? ==> Decode(codecs, coding, Encode(codecs, coding, body).value) == Ok(body)
  }

  // The response under construction, whose body the rewriter overwrites.
  class Response {
    var statusCode: int
    var content: Bytes
    var headers: map<string, string>
    var contentHeaders: map<string, string>

    constructor (statusCode: int, content: Bytes, headers: map<string, string>, contentHeaders: map<string, string>)
      ensures Value() == HttpResponseData(statusCode, content, contentHeaders, headers)
    {
      this.statusCode, this.content, this.headers, this.contentHeaders := statusCode, content, headers, contentHeaders;
    }

    function Value(): HttpResponseData
      reads this
    {
      HttpResponseData(statusCode, content, contentHeaders, headers)
    }
  }

  function WithBody(r: HttpResponseData, body: Bytes): HttpResponseData {
    r.(content := body, contentHeaders := r.contentHeaders["Content-Length" := Itoa(|body|)])
  }

  // rewriteBody as a function of the response: what it leaves behind, and its error.
  function Rewritten(r: HttpResponseData, codecs: Codecs, url: Bytes): (HttpResponseData, Option<string>) {
    var coding := Declared(r.contentHeaders);
    match Decode(codecs, coding, r.content)
    case Err(e) => (r, Some(e))
    case Ok(plain) =>
      match Encode(codecs, coding, codecs.replaceAll(plain, url))
      case Err(e) => (r.(content := plain), Some(e))
      case Ok(body) => (WithBody(r, body), None)
  }

  method RewriteBody(data: Response, codecs: Codecs, url: Bytes) returns (error: Option<string>)
    modifies data
    ensures (data.Value(), error) == Rewritten(old(data.Value()), codecs, url)
  {
    var enc := Plain;
    if "Content-Encoding" in data.contentHeaders {
      if data.contentHeaders["Content-Encoding"] == "br" {
        var dec := codecs.unbrotli(data.content);
        if dec.Err? { return Some(dec.error); }
        data.content := dec.value;
        enc := Brotli;
      } else if data.contentHeaders["Content-Encoding"] == "gzip" {
        var dec := codecs.gunzip(data.content);
        if dec.Err? { return Some(dec.error); }
        data.content := dec.value;
        enc := Gzip;
      }
    }
    var rewritten := codecs.replaceAll(data.content, url);
    var recompressed := Encode(codecs, enc, rewritten);
    if recompressed.Err? { return Some(recompressed.error); }
    data.content := recompressed.value;
    data.contentHeaders := data.contentHeaders["Content-Length" := Itoa(|recompressed.value|)];
    return None;
  }

  // The body as the rewriter decodes it.
  function Decoded(codecs: Codecs, r: HttpResponseData): Result<Bytes, string> {
    Decode(codecs, Declared(r.contentHeaders), r.content)
  }

  predicate LengthIsRight(r: HttpResponseData) {
    "Content-Length" in r.contentHeaders && r.contentHeaders["Content-Length"] == Itoa(|r.content|)
  }

  lemma ItoaIsInjective(m: nat, n: nat)
    ensures Itoa(m) == Itoa(n) <==> m == n
  {
    AtoiItoa(m);
    AtoiItoa(n);
  }

  // Coding the replaced body failed after the body was decoded in place.
  predicate EncoderFails(r: HttpResponseData, codecs: Codecs, url: Bytes) {
    && Decoded(codecs, r).Ok?
    && Encode(codecs, Declared(r.contentHeaders), codecs.replaceAll(Decoded(codecs, r).value, url)).Err?
  }

  // Whoever receives the response: what it makes of a body under a Content-Encoding header.
  // It understands gzip, br and the absence of a coding; of other codings it may make
  // anything.
  type Reader = (Option<string>, Bytes) -> Result<Bytes, string>

  ghost predicate Agrees(reader: Reader, codecs: Codecs) {
    forall body: Bytes ::
      && reader(None, body) == Ok(body)
      && reader(Some("gzip"), body) == codecs.gunzip(body)
      && reader(Some("br"), body) == codecs.unbrotli(body)
  }

  function ContentEncoding(r: HttpResponseData): Option<string> {
    if "Content-Encoding" in r.contentHeaders then Some(r.contentHeaders["Content-Encoding"]) else None
  }

  predicate KnownCoding(r: HttpResponseData) {
    ContentEncoding(r) == None || ContentEncoding(r) == Some("gzip") || ContentEncoding(r) == Some("br")
  }

  function Seen(reader: Reader, r: HttpResponseData): Result<Bytes, string> {
    reader(ContentEncoding(r), r.content)
  }

  function Replaced(codecs: Codecs, url: Bytes, seen: Result<Bytes, string>): Result<Bytes, string> {
    match seen
    case Ok(body) => Ok(codecs.replaceAll(body, url))
    case Err(e) => Err(e)
  }

  // What the reader sees of the rewritten response is the replacement applied to what it
  // would have seen.
  ghost predicate Commutes(reader: Reader, codecs: Codecs, r: HttpResponseData, url: Bytes) {
    Seen(reader, Rewritten(r, codecs, url).0) == Replaced(codecs, url, Seen(reader, r))
  }

  // Without an error the declared length is right; a body that does not decode is left as
  // it was.
  lemma RewritingKeepsHeadersTrue(r: HttpResponseData, codecs: Codecs, url: Bytes)
    ensures var (r', error) := Rewritten(r, codecs, url);
            && (error.None? ==> Decoded(codecs, r).Ok? && LengthIsRight(r'))
            && (Decoded(codecs, r).Err? ==> r' == r && error.Some?)
            && ContentEncoding(r') == ContentEncoding(r)
  {}

  lemma KnownCodingCommutes(reader: Reader, r: HttpResponseData, codecs: Codecs, url: Bytes)
    requires Lawful(codecs) && Agrees(reader, codecs) && KnownCoding(r) && !EncoderFails(r, codecs, url)
    ensures Commutes(reader, codecs, r, url)
  {
    RewritingKeepsHeadersTrue(r, codecs, url);
    assert Seen(reader, r) == Decoded(codecs, r);
    if Decoded(codecs, r).Ok? {
      var replaced := codecs.replaceAll(Decoded(codecs, r).value, url);
      var coding := Declared(r.contentHeaders);
      assert Decode(codecs, coding, Encode(codecs, coding, replaced).value) == Ok(replaced);
    }
  }

  // Under a coding the rewriter does not know, the replacement is applied to coded bytes.
  lemma UnknownCodingIsRaw(r: HttpResponseData, codecs: Codecs, url: Bytes)
    requires !KnownCoding(r)
    ensures Rewritten(r, codecs, url) == (WithBody(r, codecs.replaceAll(r.content, url)), None)
  {}

  // A reader that sees `body` in the response's own bytes, and nothing in any others.
  function Picky(codecs: Codecs, r: HttpResponseData, body: Bytes): Reader {
    (coding: Option<string>, bytes: Bytes) =>
      if coding == None then Ok(bytes)
      else if coding == Some("gzip") then codecs.gunzip(bytes)
      else if coding == Some("br") then codecs.unbrotli(bytes)
      else if bytes == r.content then Ok(body)
      else Err("unreadable")
  }

  // Rewriting commutes with content coding, for every reader, exactly when the declared
  // coding is absent, "gzip" or "br", or the replacement never changes anything.  Other
  // codings do arrive: `handle` forwards the browser's Accept-Encoding to the upstream.
  lemma RewritingCommutesWithCoding(r: HttpResponseData, codecs: Codecs, url: Bytes)
    requires Lawful(codecs) && !EncoderFails(r, codecs, url)
    ensures (forall reader: Reader | Agrees(reader, codecs) :: Commutes(reader, codecs, r, url))
            <==> KnownCoding(r) || forall body: Bytes :: codecs.replaceAll(body, url) == body
  {
    if KnownCoding(r) {
      forall reader: Reader | Agrees(reader, codecs) ensures Commutes(reader, codecs, r, url) {
        KnownCodingCommutes(reader, r, codecs, url);
      }
    } else {
      UnknownCodingIsRaw(r, codecs, url);
      if body: Bytes :| codecs.replaceAll(body, url) != body {
        var reader := Picky(codecs, r, body);
        assert Agrees(reader, codecs);
        assert !Commutes(reader, codecs, r, url);
      }
    }
  }

  // A case.  These coders do nothing and the replacement prefixes the URL; the reader knows
  // a coding "zstd", here a leading byte that it drops.
  const PLAIN_CODECS := Codecs((b: Bytes) => Ok(b), (b: Bytes) => Ok(b), (b: Bytes) => Ok(b), (b: Bytes) => Ok(b),
                               (b: Bytes, url: Bytes) => url + b)

  function ZstdReader(coding: Option<string>, body: Bytes): Result<Bytes, string> {
    Ok(if coding == Some("zstd") && body != [] then body[1..] else body)
  }

  // The reader of an upstream answer in "zstd" should see 5, 1 and sees 9, 1, although no
  // error is reported and the declared length is right.
  lemma UnknownCodingIsCorrupted()
    ensures Lawful(PLAIN_CODECS) && Agrees(ZstdReader, PLAIN_CODECS)
    ensures var r := HttpResponseData(200, [9, 1], map["Content-Encoding" := "zstd"], map[]);
            var (r', error) := Rewritten(r, PLAIN_CODECS, [5]);
            && Replaced(PLAIN_CODECS, [5], Seen(ZstdReader, r)) == Ok([5, 1])
            && Seen(ZstdReader, r') == Ok([9, 1])
            && error == None && LengthIsRight(r')
  {
    var r := HttpResponseData(200, [9, 1], map["Content-Encoding" := "zstd"], map[]);
    UnknownCodingIsRaw(r, PLAIN_CODECS, [5]);
    assert PLAIN_CODECS.replaceAll([9, 1], [5]) == [5, 9, 1];
    assert Seen(ZstdReader, r) == Ok([1]);
    assert PLAIN_CODECS.replaceAll([1], [5]) == [5, 1];
  }

  // The declared length stays right exactly unless the encoder fails on a body whose coded
  // and decoded lengths differ: then the decoded body is left under the old headers.
  lemma LengthStaysRightUnlessEncoderFails(r: HttpResponseData, codecs: Codecs, url: Bytes)
    requires LengthIsRight(r)
    ensures LengthIsRight(Rewritten(r, codecs, url).0)
            <==> !(EncoderFails(r, codecs, url) && |Decoded(codecs, r).value| != |r.content|)
    ensures EncoderFails(r, codecs, url) ==> Rewritten(r, codecs, url).0 == r.(content := Decoded(codecs, r).value)
  {
    if EncoderFails(r, codecs, url) {
      ItoaIsInjective(|Decoded(codecs, r).value|, |r.content|);
    }
  }

  const CONTENT_HEADERS: set<string> := {
    "content-type", "content-length", "content-encoding", "content-language", "content-range",
    "content-disposition", "content-location", "expires", "last-modified", "allow"}

  predicate IsContentHeader(name: string) { Lower(name) in CONTENT_HEADERS }

  // The upstream headers of one kind, out of those with one of the given names, each with
  // its values joined.
  function HeadersAmong(header: map<string, seq<string>>, content: bool, names: set<string>): map<string, string> {
    map name | name in header && name in names && IsContentHeader(name) == content :: JoinComma(header[name])
  }

  function HeadersOfKind(header: map<string, seq<string>>, content: bool): map<string, string> {
    HeadersAmong(header, content, header.Keys)
  }

  function Copied(status: int, header: map<string, seq<string>>, body: Bytes): HttpResponseData {
    HttpResponseData(status, body, HeadersOfKind(header, true)["Content-Length" := Itoa(|body|)],
                     HeadersOfKind(header, false))
  }

  predicate ShouldRewrite(enabled: bool, r: HttpResponseData, url: Bytes) {
    && enabled && url != []
    && "Content-Type" in r.contentHeaders && Contains(r.contentHeaders["Content-Type"], "text/html")
  }

  function Built(status: int, header: map<string, seq<string>>, body: Bytes, enabled: bool, codecs: Codecs, url: Bytes)
    : HttpResponseData
  {
    var r := Copied(status, header, body);
    if ShouldRewrite(enabled, r, url) then Rewritten(r, codecs, url).0 else r
  }

  // buildResponse; the order in which the header map is visited is arbitrary.
  method BuildResponse(status: int, header: map<string, seq<string>>, body: Bytes, enabled: bool, codecs: Codecs,
                       url: Bytes)
    returns (out: Response)
    ensures fresh(out) && out.Value() == Built(status, header, body, enabled, codecs, url)
  {
    var headers: map<string, string> := map[];
    var contentHeaders: map<string, string> := map[];
    var todo := header.Keys;
    while todo != {}
      invariant todo <= header.Keys
      invariant headers == HeadersAmong(header, false, header.Keys - todo)
      invariant contentHeaders == HeadersAmong(header, true, header.Keys - todo)
      decreases todo
    {
      var name :| name in todo;
      var joined := JoinComma(header[name]);
      if IsContentHeader(name) {
        contentHeaders := contentHeaders[name := joined];
      } else {
        headers := headers[name := joined];
      }
      assert header.Keys - (todo - {name}) == header.Keys - todo + {name};
      todo := todo - {name};
    }
    assert header.Keys - todo == header.Keys;
    contentHeaders := contentHeaders["Content-Length" := Itoa(|body|)];
    out := new Response(status, body, headers, contentHeaders);
    if enabled && "Content-Type" in contentHeaders && Contains(contentHeaders["Content-Type"], "text/html") {
      if url != [] {
        var _ := RewriteBody(out, codecs, url);
      }
    }
  }

  // The ten entity headers that go into the content map, whatever their case.
  ghost predicate IsListed(name: string) {
    || EqualFold(name, "content-type") || EqualFold(name, "content-length") || EqualFold(name, "content-encoding")
    || EqualFold(name, "content-language") || EqualFold(name, "content-range")
    || EqualFold(name, "content-disposition") || EqualFold(name, "content-location")
    || EqualFold(name, "expires") || EqualFold(name, "last-modified") || EqualFold(name, "allow")
  }

  lemma LowerIsFold(name: string, listed: string)
    requires forall i | 0 <= i < |listed| :: !('A' <= listed[i] <= 'Z')
    ensures Lower(name) == listed <==> EqualFold(name, listed)
  {
    LowerDecidesEqualFold(name, listed);
    assert Lower(listed) == listed;
  }

  lemma ListedIsContentHeader(name: string)
    ensures IsContentHeader(name) <==> IsListed(name)
  {
    LowerIsFold(name, "content-type");
    LowerIsFold(name, "content-length");
    LowerIsFold(name, "content-encoding");
    LowerIsFold(name, "content-language");
    LowerIsFold(name, "content-range");
    LowerIsFold(name, "content-disposition");
    LowerIsFold(name, "content-location");
    LowerIsFold(name, "expires");
    LowerIsFold(name, "last-modified");
    LowerIsFold(name, "allow");
  }

  // The upstream's values, as one: a single value stays as it is.
  ghost predicate Carries(joined: map<string, string>, header: map<string, seq<string>>, name: string) {
    name in header && name in joined && joined[name] == JoinComma(header[name]) &&
    (|header[name]| == 1 ==> joined[name] == header[name][0])
  }

  lemma BuiltKeepsHeaders(status: int, header: map<string, seq<string>>, body: Bytes, enabled: bool, codecs: Codecs,
                          url: Bytes)
    ensures var r := Built(status, header, body, enabled, codecs, url);
            && r.headers == HeadersOfKind(header, false)
            && "Content-Length" in r.contentHeaders
            && r.contentHeaders
                 == HeadersOfKind(header, true)["Content-Length" := r.contentHeaders["Content-Length"]]
  {
    var copied := Copied(status, header, body);
    assert copied.contentHeaders == HeadersOfKind(header, true)["Content-Length" := Itoa(|body|)];
    var r := Built(status, header, body, enabled, codecs, url);
    if r.contentHeaders != copied.contentHeaders {
      assert r.contentHeaders == HeadersOfKind(header, true)["Content-Length" := Itoa(|r.content|)];
    }
  }

  // No header of the upstream response is lost, duplicated or invented: each stands in
  // exactly one of the two maps, by its kind and with its values joined, only Content-Length
  // being set anew.
  lemma HeadersArePartitioned(status: int, header: map<string, seq<string>>, body: Bytes, enabled: bool, codecs: Codecs,
                              url: Bytes, name: string)
    ensures var r := Built(status, header, body, enabled, codecs, url);
            if name == "Content-Length" then name in r.contentHeaders && name !in r.headers
            else
              && (name in r.contentHeaders <==> name in header && IsListed(name))
              && (name in r.headers <==> name in header && !IsListed(name))
              && (name in r.contentHeaders ==> Carries(r.contentHeaders, header, name))
              && (name in r.headers ==> Carries(r.headers, header, name))
  {
    ListedIsContentHeader(name);
    BuiltKeepsHeaders(status, header, body, enabled, codecs, url);
  }

  // Is one of the upstream's Content-Type values of this kind?
  ghost predicate IsHtml(header: map<string, seq<string>>) {
    && "Content-Type" in header
    && exists i | 0 <= i < |header["Content-Type"]| :: Inside(header["Content-Type"][i], "text/html")
  }

  lemma TypeAndEncodingAreListed()
    ensures IsContentHeader("Content-Type") && IsListed("Content-Type")
    ensures IsContentHeader("Content-Encoding") && IsListed("Content-Encoding")
  {
    LowerIsFold("Content-Type", "content-type");
    LowerIsFold("Content-Encoding", "content-encoding");
  }

  // The upstream's own headers call for rewriting exactly when its content type is HTML.
  lemma RewritesHtml(status: int, header: map<string, seq<string>>, body: Bytes, enabled: bool, url: Bytes)
    ensures ShouldRewrite(enabled, Copied(status, header, body), url) <==> enabled && url != [] && IsHtml(header)
  {
    TypeAndEncodingAreListed();
    if "Content-Type" in header {
      var values := header["Content-Type"];
      JoinContains(values, "text/html");
      forall i | 0 <= i < |values| ensures Contains(values[i], "text/html") <==> Inside(values[i], "text/html") {
        ContainsMeansInside(values[i], "text/html");
      }
    }
  }

  lemma KeepsCoding(status: int, header: map<string, seq<string>>, body: Bytes, coding: string)
    requires coding != "" && ',' !in coding
    ensures var seen := ContentEncoding(Copied(status, header, body));
            && (seen == None <==> "Content-Encoding" !in header)
            && (seen == Some(coding) <==> "Content-Encoding" in header && header["Content-Encoding"] == [coding])
  {
    TypeAndEncodingAreListed();
    if "Content-Encoding" in header { JoinedIsOne(header["Content-Encoding"], coding); }
  }

  // Whatever the upstream sent, the built response declares its own length and has the
  // upstream's status.  Its body is the upstream's, unless rewriting is on, the URL known and
  // the content type HTML.  Then, with coders that do not fail, every reader sees the
  // replacement applied to what it would have seen of the upstream body under the upstream's
  // own coding, if that is absent, gzip or br; else the coded bytes are rewritten.
  lemma BuiltResponseMeansWhatItShould(status: int, header: map<string, seq<string>>, body: Bytes, enabled: bool,
                                       codecs: Codecs, url: Bytes, reader: Reader)
    requires Lawful(codecs) && Agrees(reader, codecs)
    requires forall coding: Coding, plain: Bytes :: Encode(codecs, coding, plain).Ok?
    ensures var built := Built(status, header, body, enabled, codecs, url);
            && LengthIsRight(built) && built.statusCode == status
            && if !(enabled && url != [] && IsHtml(header)) then built.content == body
               else if "Content-Encoding" !in header then
                 built.content == codecs.replaceAll(body, url) && Seen(reader, built) == Ok(built.content)
               else if header["Content-Encoding"] == ["gzip"] || header["Content-Encoding"] == ["br"] then
                 Seen(reader, built) == Replaced(codecs, url, reader(Some(header["Content-Encoding"][0]), body))
               else built.content == codecs.replaceAll(body, url)
  {
    var copied := Copied(status, header, body);
    RewritesHtml(status, header, body, enabled, url);
    KeepsCoding(status, header, body, "gzip");
    KeepsCoding(status, header, body, "br");
    LengthStaysRightUnlessEncoderFails(copied, codecs, url);
    if KnownCoding(copied) {
      KnownCodingCommutes(reader, copied, codecs, url);
    } else {
      UnknownCodingIsRaw(copied, codecs, url);
    }
  }
}
