/**
 The public HTTP listener: which tunnel client a Host header leads to, and which request
 headers are forwarded.
 */
module HttpServer {
  import opened Ascii
  import opened Protocol
  import opened Allocation
  import ClientHandler
  import HostMaps
  import Lease
  import TunnelHost

  // strings.Split(host, ".")[0]
  function FirstLabel(host: string): string {
    if host == "" || host[0] == '.' then "" else [host[0]] + FirstLabel(host[1..])
  }

  predicate IsLocal(segment: string) { segment == "localhost" || segment == "192" }

  // What the routing code may answer for a Host header: for a local address whichever
  // connected client the map iteration meets first, else the client of that name.
  ghost predicate CanResolve<C>(clients: map<string, C>, nil: C, host: string, answer: C) {
    var segment := FirstLabel(host);
    if IsLocal(segment) then
      if answer == nil then forall key | key in clients :: clients[key] == nil
      else exists key :: key in clients && clients[key] == answer
    else answer == HostMaps.Lookup(clients, segment, nil)
  }

  lemma {:induction false} FirstLabelStopsAtDot(name: string, rest: string)
    ensures FirstLabel(name + "." + rest) == FirstLabel(name)
    ensures '.' !in name ==> FirstLabel(name) == name
    ensures '.' in name ==> |FirstLabel(name)| < |name|
  {
    if name == "" {
      assert name + "." + rest == "." + rest;
    } else if name[0] != '.' {
      assert (name + "." + rest)[1..] == name[1..] + "." + rest;
      FirstLabelStopsAtDot(name[1..], rest);
      assert name == [name[0]] + name[1..];
    }
  }

  // Does a Host header starting with this spelling of handler h's name lead to h alone?
  ghost predicate RoutesBack(s: Lease.State, h: nat, spelling: string) {
    if IsLocal(FirstLabel(spelling)) then forall g: nat | Lease.At(s, g, Lease.Live) :: g == h
    else '.' !in spelling
  }

  // Any live client may be the answer, and none only when there is none.
  ghost predicate AnyLive(s: Lease.State, answer: Option<nat>) {
    if answer == None then forall g: nat :: !Lease.At(s, g, Lease.Live) else Lease.At(s, answer.value, Lease.Live)
  }

  lemma LocalAnswersAreLive(s: Lease.State, host: string, answer: Option<nat>)
    requires Lease.Reachable(s) && IsLocal(FirstLabel(host))
    ensures CanResolve(s.clients, None, host, answer) <==> AnyLive(s, answer)
  {
    Lease.LeaseOwnership(s);
    forall g: nat | Lease.At(s, g, Lease.Live)
      ensures Lease.Key(s, g) in s.clients && s.clients[Lease.Key(s, g)] == Some(g)
    {
      assert Lease.Holds(s, g);
      assert s.clients[Lease.Key(s, g)] == Lease.Entry(s, g);
    }
    forall key | key in s.clients && s.clients[key] != None ensures Lease.At(s, s.clients[key].value, Lease.Live) {
      var h: nat :| Lease.HolderOf(s, h, key);
      assert s.clients[Lease.Key(s, h)] == Lease.Entry(s, h);
    }
  }

  lemma FirstLabelIs(host: string, word: string)
    requires '.' !in word
    ensures FirstLabel(host) == word <==> host == word || word + "." <= host
  {
    if host == word || word + "." <= host {
      FirstLabelStopsAtDot(word, host[|word| + (if host == word then 0 else 1)..]);
      assert host == word || host == word + "." + host[|word| + 1..];
    } else {
      LabelIsPrefix(host);
    }
  }

  lemma {:induction false} LabelIsPrefix(host: string)
    ensures host == FirstLabel(host) || FirstLabel(host) + "." <= host
  {
    if host != "" && host[0] != '.' {
      LabelIsPrefix(host[1..]);
      assert host == [host[0]] + host[1..];
    }
  }

  // A Host header is answered by any live client exactly when it is `localhost` or `192`, or
  // starts with one of them and a dot, as 192.168.1.5 does.
  lemma LocalHostsLeadToAny(s: Lease.State, host: string)
    requires Lease.Reachable(s)
    ensures IsLocal(FirstLabel(host)) <==>
            host == "localhost" || "localhost." <= host || host == "192" || "192." <= host
    ensures host == "localhost" || "localhost." <= host || host == "192" || "192." <= host ==>
              forall answer :: CanResolve(s.clients, None, host, answer) <==> AnyLive(s, answer)
  {
    FirstLabelIs(host, "localhost");
    FirstLabelIs(host, "192");
    assert "localhost" + "." == "localhost." && "192" + "." == "192.";
    if IsLocal(FirstLabel(host)) {
      forall answer ensures CanResolve(s.clients, None, host, answer) <==> AnyLive(s, answer) {
        LocalAnswersAreLive(s, host, answer);
      }
    }
  }

  // The advertised URL routes back.  While handler h is live, a Host header that spells its
  // name in any letter case, then a dot and anything, leads to h and to no other, exactly
  // when the name has no dot and is not a local label (or is one, but h is the only client).
  lemma AdvertisedUrlRoutesBack(s: Lease.State, h: nat, spelling: string, rest: string)
    requires Lease.Reachable(s) && Lease.At(s, h, Lease.Live) && EqualFold(s.handlers[h].name, spelling)
    ensures (forall answer: Option<nat> ::
               CanResolve(s.clients, None, spelling + "." + rest, answer) <==> answer == Some(h))
            <==> RoutesBack(s, h, spelling)
  {
    var host := spelling + "." + rest;
    var segment := FirstLabel(spelling);
    FirstLabelStopsAtDot(spelling, rest);
    if IsLocal(segment) {
      forall answer: Option<nat>
        ensures CanResolve(s.clients, None, host, answer) <==> AnyLive(s, answer)
      {
        LocalAnswersAreLive(s, host, answer);
      }
      if !RoutesBack(s, h, spelling) {
        var g: nat :| Lease.At(s, g, Lease.Live) && g != h;
        assert CanResolve(s.clients, None, host, Some(g));
      }
    } else {
      Lease.LookupFindsTheLiveHolder(s, segment, h);
      assert CanResolve(s.clients, None, host, HostMaps.Lookup(s.clients, segment, None));
    }
  }

  // Without a pool, another client asks for a free name, is given it and goes live.
  lemma GoesLive(s: Lease.State, name: string) returns (s': Lease.State)
    requires Lease.Reachable(s) && s.pool == [] && name != "" && Lower(name) !in s.clients
    ensures Lease.Reachable(s') && s'.pool == [] && s'.clients == s.clients[Lower(name) := Some(|s.handlers|)]
    ensures s'.handlers == s.handlers + [Lease.Handler(name, name, Lease.Live)]
  {
    var h, draws := |s.handlers|, seq(ATTEMPTS, i => (0, 1));
    Lease.StepIsReachable(s, Lease.Arrive(name));
    var arrived := Lease.Apply(s, Lease.Arrive(name));
    Lease.StepIsReachable(arrived, Lease.Assign(h, draws, Some(name)));
    var reserved := Lease.Apply(arrived, Lease.Assign(h, draws, Some(name)));
    Lease.StepIsReachable(reserved, Lease.Publish(h));
    s' := Lease.Apply(reserved, Lease.Publish(h));
  }

  lemma NobodyIsConnected()
    ensures Lease.Reachable(Lease.Initial([]))
  {
    var s := Lease.Initial([]);
    assert Lease.Valid(s, []) && Lease.After(s, []) == s;
  }

  // A client that asked for "a.b" has it, and its advertised URL leads nowhere.
  lemma DottedNameIsLost(rest: string)
    ensures exists s: Lease.State ::
              && Lease.Reachable(s) && Lease.At(s, 0, Lease.Live) && s.handlers[0].name == "a.b"
              && forall answer :: CanResolve(s.clients, None, "a.b" + "." + rest, answer) <==> answer == None
  {
    NobodyIsConnected();
    assert Lower("a.b") == "a.b" && Lower("a") == "a";
    var s := GoesLive(Lease.Initial([]), "a.b");
    FirstLabelStopsAtDot("a.b", rest);
    assert FirstLabel("a.b") == "a";
  }

  // A client that asked for "localhost" has it, and its advertised URL may lead to another.
  lemma LocalNameIsShared(rest: string)
    ensures exists s: Lease.State ::
              && Lease.Reachable(s) && Lease.At(s, 0, Lease.Live) && s.handlers[0].name == "localhost"
              && CanResolve(s.clients, None, "localhost" + "." + rest, Some(1))
  {
    var s := TwoAreLive();
    var host := "localhost" + "." + rest;
    assert FirstLabel(host) == "localhost" by { FirstLabelStopsAtDot("localhost", rest); }
    LocalAnswersAreLive(s, host, Some(1));
  }

  lemma TwoAreLive() returns (s: Lease.State)
    ensures Lease.Reachable(s)
    ensures s.handlers == [Lease.Handler("localhost", "localhost", Lease.Live), Lease.Handler("x", "x", Lease.Live)]
  {
    NobodyIsConnected();
    assert Lower("localhost") == "localhost" && Lower("x") == "x" && "localhost" != "x";
    s := GoesLive(Lease.Initial([]), "localhost");
    s := GoesLive(s, "x");
  }

  // Generated names always route back, in every letter case.
  lemma DrawnNamesRouteBack(s: Lease.State, h: nat, d: Draw, spelling: string)
    requires EqualFold(DrawnName(d), spelling)
    ensures RoutesBack(s, h, spelling)
  {
    var name, word := DrawnName(d), FALLBACK_WORDS[d.0];
    WordsHaveNoDigits(d.0);
    assert name[0] == FALLBACK_WORDS[d.0][0] && IsDigit(name[|name| - 1]) by {
      assert name[|name| - 1] == Itoa(d.1)[|Itoa(d.1)| - 1];
    }
    forall i | 0 <= i < |spelling| ensures spelling[i] != '.' {
      assert SameLetter(name[i], spelling[i]);
      assert name[i] == if i < |word| then word[i] else Itoa(d.1)[i - |word|];
    }
    FirstLabelStopsAtDot(spelling, "");
    assert SameLetter(name[0], spelling[0]) && SameLetter(name[|name| - 1], spelling[|name| - 1]);
  }

  // The header blacklist.

  predicate HasStar(item: string) { '*' in item }

  // strings.TrimRight(item, "*")
  function TrimStars(item: string): string {
    if |item| > 0 && item[|item| - 1] == '*' then TrimStars(item[..|item| - 1]) else item
  }

  function ExactNames(items: seq<string>): set<string> {
    set i | 0 <= i < |items| && !HasStar(items[i]) :: Lower(items[i])
  }

  function WildPrefixes(items: seq<string>): seq<string> {
    if items == [] then []
    else
      var last := items[|items| - 1];
      WildPrefixes(items[..|items| - 1]) + if HasStar(last) then [TrimStars(last)] else []
  }

  predicate MatchesAny(wild: seq<string>, key: string) {
    exists i | 0 <= i < |wild| :: HasPrefix(Lower(key), Lower(wild[i]))
  }

  // The two-structure test of the header loop.
  predicate Blocked(items: seq<string>, key: string) {
    Lower(key) in ExactNames(items) || MatchesAny(WildPrefixes(items), key)
  }

  // What an operator means by a blacklist entry.
  datatype Pattern = Name(text: string) | Prefix(text: string)

  predicate Matches(p: Pattern, key: string) {
    match p
    case Name(text) => EqualFold(text, key)
    case Prefix(text) => |text| <= |key| && EqualFold(text, key[..|text|])
  }

  // How the entry is written in the configuration.
  function Written(p: Pattern): string {
    match p
    case Name(text) => text
    case Prefix(text) => text + "*"
  }

  // How the host reads a configured item.
  function Read(item: string): Pattern {
    if HasStar(item) then Prefix(TrimStars(item)) else Name(item)
  }

  // An entry is read as it was meant exactly when a name has no star in it, and a prefix
  // does not itself end in one; inner stars stand for themselves.
  lemma WrittenIsRead(p: Pattern)
    ensures Read(Written(p)) == p
            <==> if p.Name? then '*' !in p.text else p.text == "" || p.text[|p.text| - 1] != '*'
  {
    if p.Prefix? {
      assert Written(p)[..|p.text|] == p.text;
      assert Written(p)[|p.text|] == '*';
      TrimStarsIsShorter(p.text);
    }
  }

  lemma {:induction false} TrimStarsIsShorter(item: string)
    ensures |TrimStars(item)| <= |item|
    ensures TrimStars(item) == item <==> item == "" || item[|item| - 1] != '*'
  {
    if |item| > 0 && item[|item| - 1] == '*' { TrimStarsIsShorter(item[..|item| - 1]); }
  }

  lemma LowerPrefixIsFold(text: string, key: string)
    ensures HasPrefix(Lower(key), Lower(text)) <==> |text| <= |key| && EqualFold(text, key[..|text|])
  {
    if |text| <= |key| {
      LowerDecidesEqualFold(text, key[..|text|]);
      assert Lower(key)[..|text|] == Lower(key[..|text|]);
    }
  }

  lemma {:induction false} WildPrefixesMatch(items: seq<string>, key: string)
    ensures MatchesAny(WildPrefixes(items), key)
            <==> exists i | 0 <= i < |items| :: HasStar(items[i]) && Matches(Read(items[i]), key)
  {
    if items != [] {
      var front, last := items[..|items| - 1], items[|items| - 1];
      WildPrefixesMatch(front, key);
      LowerPrefixIsFold(TrimStars(last), key);
      var wild, wild' := WildPrefixes(front), WildPrefixes(items);
      assert wild' == wild + if HasStar(last) then [TrimStars(last)] else [];
      if MatchesAny(wild', key) {
        var i :| 0 <= i < |wild'| && HasPrefix(Lower(key), Lower(wild'[i]));
        if i < |wild| {
          assert HasPrefix(Lower(key), Lower(wild[i]));
          var j :| 0 <= j < |front| && HasStar(front[j]) && Matches(Read(front[j]), key);
          assert items[j] == front[j];
        }
      }
      if i :| 0 <= i < |items| && HasStar(items[i]) && Matches(Read(items[i]), key) {
        if i < |front| {
          assert front[i] == items[i];
          var j :| 0 <= j < |wild| && HasPrefix(Lower(key), Lower(wild[j]));
          assert wild'[j] == wild[j];
        } else {
          assert wild'[|wild|] == TrimStars(last);
        }
      }
    }
  }

  // A header is blocked exactly when some configured item, read as an entry, matches it,
  // ignoring case.
  lemma BlockedMeansSomeEntryMatches(items: seq<string>, key: string)
    ensures Blocked(items, key) <==> exists i | 0 <= i < |items| :: Matches(Read(items[i]), key)
  {
    WildPrefixesMatch(items, key);
    forall i | 0 <= i < |items| && !HasStar(items[i])
      ensures Lower(items[i]) == Lower(key) <==> Matches(Read(items[i]), key)
    {
      LowerDecidesEqualFold(items[i], key);
    }
    if Lower(key) in ExactNames(items) {
      var i :| 0 <= i < |items| && !HasStar(items[i]) && Lower(items[i]) == Lower(key);
      assert Matches(Read(items[i]), key);
    }
  }

  // The headers kept, out of those with one of the given names.
  function KeptAmong(items: seq<string>, ipHeader: string, header: map<string, seq<string>>, names: set<string>)
    : map<string, string>
  {
    map name
      | name in header && name in names && header[name] != [] && !Blocked(items, name) && Lower(name) != Lower(ipHeader)
      :: JoinComma(header[name])
  }

  // The header map sent to the client, for a configuration and a request.
  function Forwarded(items: seq<string>, ipHeader: string, header: map<string, seq<string>>, host: string)
    : map<string, string>
  {
    var kept := KeptAmong(items, ipHeader, header, header.Keys);
    if host != "" then kept["Host" := host] else kept
  }

  // The forwarded map is exactly the non-empty headers that no entry matches, less the IP
  // header, with Host set last, whatever the blacklist says of it.
  lemma FilterRefinesBlacklist(items: seq<string>, ipHeader: string, header: map<string, seq<string>>, host: string,
                               name: string)
    ensures var out := Forwarded(items, ipHeader, header, host);
            if name == "Host" && host != "" then name in out && out[name] == host
            else
              && (name in out <==> && name in header && header[name] != []
                                   && (forall i | 0 <= i < |items| :: !Matches(Read(items[i]), name))
                                   && !EqualFold(name, ipHeader))
              && (name in out ==> out[name] == JoinComma(header[name]))
              && (name in out && |header[name]| == 1 ==> out[name] == header[name][0])
  {
    BlockedMeansSomeEntryMatches(items, name);
    LowerDecidesEqualFold(name, ipHeader);
  }

  // An entry "Host" matches the header, which is forwarded all the same.
  lemma BlockedHostIsForwarded(ipHeader: string, header: map<string, seq<string>>, host: string)
    requires host != ""
    ensures Blocked(["Host"], "Host")
    ensures var out := Forwarded(["Host"], ipHeader, header, host); "Host" in out && out["Host"] == host
  {
    assert !HasStar(["Host"][0]);
    FilterRefinesBlacklist(["Host"], ipHeader, header, host, "Host");
  }

  // What the browser gets for a response.

  datatype Reply = Reply(status: int, headers: map<string, string>, body: Bytes)

  // The response's own headers out of those with one of the given names.
  function HeadersAmong(headers: map<string, string>, names: set<string>): map<string, string> {
    map name | name in headers && name in names :: headers[name]
  }

  function ReplyTo(r: HttpResponseData): Reply {
    var coding, kind := "Content-Encoding", "Content-Type";
    var coded := if coding in r.contentHeaders then r.headers[coding := r.contentHeaders[coding]] else r.headers;
    Reply(if r.statusCode == 0 then 200 else r.statusCode,
          coded[kind := if kind in r.contentHeaders then r.contentHeaders[kind] else "application/octet-stream"],
          r.content)
  }

  // A response whose headers are those of an upstream, by kind.
  ghost predicate Partitions(r: HttpResponseData, header: map<string, seq<string>>, name: string) {
    && (name in r.contentHeaders <==> name in header && ClientHandler.IsListed(name))
    && (name in r.headers <==> name in header && !ClientHandler.IsListed(name))
    && (name in r.contentHeaders ==> ClientHandler.Carries(r.contentHeaders, header, name))
    && (name in r.headers ==> ClientHandler.Carries(r.headers, header, name))
  }

  // The browser has of an upstream's headers every one outside the ten entity headers, and of
  // those Content-Encoding and Content-Type.
  ghost predicate Reaches(headers: map<string, string>, header: map<string, seq<string>>, name: string) {
    && (name in headers <==>
          || name == "Content-Type"
          || (name in header && (name == "Content-Encoding" || !ClientHandler.IsListed(name))))
    && (name in headers && name in header ==> ClientHandler.Carries(headers, header, name))
    && (name == "Content-Type" && name !in header ==> name in headers && headers[name] == "application/octet-stream")
  }

  lemma ReplyReaches(r: HttpResponseData, header: map<string, seq<string>>, name: string)
    requires Partitions(r, header, name)
    requires ClientHandler.IsListed("Content-Type") && ClientHandler.IsListed("Content-Encoding")
    ensures Reaches(ReplyTo(r).headers, header, name)
  {}

  // From the upstream to the browser: status and body as the client built them, and the
  // headers by the rule above, each with its values joined.  So Content-Disposition,
  // Last-Modified and six others are lost.
  lemma UpstreamReachesBrowser(status: int, header: map<string, seq<string>>, body: Bytes, enabled: bool,
                               codecs: ClientHandler.Codecs, url: Bytes, name: string)
    ensures var built := ClientHandler.Built(status, header, body, enabled, codecs, url);
            var reply := ReplyTo(built);
            && reply.status == (if status == 0 then 200 else status) && reply.body == built.content
            && if name == "Content-Length" then name !in reply.headers else Reaches(reply.headers, header, name)
  {
    ClientHandler.TypeAndEncodingAreListed();
    ClientHandler.HeadersArePartitioned(status, header, body, enabled, codecs, url, name);
    if name != "Content-Length" {
      ReplyReaches(ClientHandler.Built(status, header, body, enabled, codecs, url), header, name);
    }
  }

  // The header from which the client's address is taken, and the name it is looked up by.
  ghost predicate IsIpHeader(items: seq<string>, ipHeader: string, header: map<string, seq<string>>, name: string) {
    name in header && header[name] != [] && Lower(name) !in ExactNames(items) && Lower(name) == Lower(ipHeader)
  }

  class HttpServer {
    ghost const items: seq<string>
    const ipHeaderName: string
    var blacklist: set<string>
    var blacklistWild: seq<string>

    ghost predicate Valid()
      reads this
    {
      blacklist == ExactNames(items) && blacklistWild == WildPrefixes(items)
    }

    constructor (blackList: seq<string>, ipHeader: string)
      ensures Valid() && items == blackList
      ensures ipHeaderName == if ipHeader == "" then "X-Forwarded-For" else ipHeader
    {
      items := blackList;
      ipHeaderName := if ipHeader == "" then "X-Forwarded-For" else ipHeader;
      blacklist, blacklistWild := {}, [];
      new;
      for i := 0 to |blackList|
        invariant blacklist == ExactNames(blackList[..i]) && blacklistWild == WildPrefixes(blackList[..i])
      {
        assert blackList[..i + 1][..i] == blackList[..i];
        if HasStar(blackList[i]) {
          blacklistWild := blacklistWild + [TrimStars(blackList[i])];
        } else {
          blacklist := blacklist + {Lower(blackList[i])};
        }
        ghost var before, after := blackList[..i], blackList[..i + 1];
        assert forall k | 0 <= k < i :: after[k] == before[k];
      }
      assert blackList[..|blackList|] == blackList;
    }

    method MatchesWild(key: string) returns (found: bool)
      ensures found == MatchesAny(blacklistWild, key)
    {
      for i := 0 to |blacklistWild|
        invariant forall k | 0 <= k < i :: !HasPrefix(Lower(key), Lower(blacklistWild[k]))
      {
        if HasPrefix(Lower(key), Lower(blacklistWild[i])) {
          return true;
        }
      }
      return false;
    }

    // collectHeaders; the order in which the header map is visited is arbitrary.
    method CollectHeaders(header: map<string, seq<string>>, host: string)
      returns (out: map<string, string>, clientIP: string)
      requires Valid()
      ensures out == Forwarded(items, ipHeaderName, header, host)
      ensures if exists name :: IsIpHeader(items, ipHeaderName, header, name)
              then exists name :: IsIpHeader(items, ipHeaderName, header, name) && clientIP == header[name][0]
              else clientIP == "unknown"
    {
      clientIP := "unknown";
      out := map[];
      ghost var from: Option<string> := None;
      var todo := header.Keys;
      while todo != {}
        invariant todo <= header.Keys
        invariant out == KeptAmong(items, ipHeaderName, header, header.Keys - todo)
        invariant from.None? ==> clientIP == "unknown"
        invariant from.None? ==> forall name | IsIpHeader(items, ipHeaderName, header, name) :: name in todo
        invariant from.Some? ==>
                    IsIpHeader(items, ipHeaderName, header, from.value) && clientIP == header[from.value][0]
        decreases todo
      {
        var name :| name in todo;
        ghost var done := header.Keys - todo;
        todo := todo - {name};
        assert header.Keys - todo == done + {name};
        if |header[name]| == 0 || Lower(name) in blacklist {
          continue;
        }
        if Lower(name) == Lower(ipHeaderName) {
          clientIP := header[name][0];
          from := Some(name);
          continue;
        }
        var wild := MatchesWild(name);
        if !wild {
          out := out[name := JoinComma(header[name])];
        }
      }
      assert header.Keys - todo == header.Keys;
      if host != "" {
        out := out["Host" := host];
      }
    }

    // The answering part of `handle`; header names are in canonical form, and the order in
    // which the header map is visited is arbitrary.
    method WriteResponse(resp: HttpResponseData) returns (reply: Reply)
      ensures reply == ReplyTo(resp)
    {
      var headers: map<string, string> := map[];
      var todo := resp.headers.Keys;
      while todo != {}
        invariant todo <= resp.headers.Keys
        invariant headers == HeadersAmong(resp.headers, resp.headers.Keys - todo)
        decreases todo
      {
        var name :| name in todo;
        headers := headers[name := resp.headers[name]];
        assert resp.headers.Keys - (todo - {name}) == resp.headers.Keys - todo + {name};
        todo := todo - {name};
      }
      assert headers == resp.headers;
      if "Content-Encoding" in resp.contentHeaders {
        headers := headers["Content-Encoding" := resp.contentHeaders["Content-Encoding"]];
      }
      if "Content-Type" in resp.contentHeaders {
        headers := headers["Content-Type" := resp.contentHeaders["Content-Type"]];
      } else {
        headers := headers["Content-Type" := "application/octet-stream"];
      }
      var status := resp.statusCode;
      if status == 0 {
        status := 200;
      }
      reply := Reply(status, headers, resp.content);
    }

    // The routing part of `handle`.
    method Resolve(tunnel: TunnelHost.TunnelHost, host: string) returns (client: TunnelHost.ClientInfo?)
      requires tunnel.Valid()
      ensures CanResolve(tunnel.clients, null, host, client)
    {
      var clientName := FirstLabel(host);
      if clientName == "localhost" || clientName == "192" {
        client := tunnel.GetAnyClient();
      } else {
        client := tunnel.GetClient(clientName);
      }
    }
  }
}
