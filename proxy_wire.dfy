/**
 * The pure decisions of the proxy's `Server`: routing by request method, the
 * CONNECT target taken from `Host`, the outbound request built for GET and POST,
 * the `Via` value, and the text written back for a forwarded response.
 *
 * The parsed request and the upstream response are plain records standing for
 * what WEBrick and Net::HTTP hand to the server.
 */
module ProxyWire {
  import opened Common
  import opened RubyText

  /**
   * A request as WEBrick parses it: method, path, the host and port it is addressed
   * to, and the header table keyed by lower-cased field name, each name with its
   * values in order of arrival.
   */
  datatype Request = Request(
    requestMethod: string,
    path: string,
    host: string,
    port: int,
    header: map<string, seq<string>>)

  /** One header of an upstream response as Net::HTTP lists it: lower-cased name, values joined by ", ". */
  datatype Field = Field(name: string, value: string)

  /** An upstream response: status code text, header fields in order, body (nil when there is none). */
  datatype Response = Response(code: string, fields: seq<Field>, body: Option<string>)

  /** The Net::HTTP request classes the server uses. */
  datatype Verb = Get | Post

  /** The outbound request: class, path and header table handed to Net::HTTP. */
  datatype Outbound = Outbound(verb: Verb, path: string, header: map<string, Option<string>>)

  /** The exceptions that can end the handling of one connection. */
  datatype Error =
    | ParseFailed            // WEBrick could not parse the request
    | MethodNotImplemented   // HTTPMethodNotImplemented
    | NilReceiver            // NoMethodError: a method called on nil
    | UpstreamFailed         // Net::HTTP could not connect, send or read
    | WriteFailed            // writing to the client socket raised

  /** Where the dispatcher sends a request. */
  datatype Route = Tunnel | Forward | Unsupported

  const MethodConnect: string := "CONNECT"
  const MethodGet: string := "GET"
  const MethodPost: string := "POST"

  /** The `case req.request_method` of the per-connection block. */
  function RouteOf(requestMethod: string): (r: Route)
    ensures r == Tunnel <==> requestMethod == MethodConnect
    ensures r == Forward <==> requestMethod == MethodGet || requestMethod == MethodPost
    ensures r == Unsupported <==> requestMethod != MethodConnect && requestMethod != MethodGet && requestMethod != MethodPost
  {
    if requestMethod == MethodConnect then Tunnel
    else if requestMethod == MethodGet || requestMethod == MethodPost then Forward
    else Unsupported
  }

  /** WEBrick's `req[name]`: all values of the field joined by ", ", or nil when it has none. */
  function HeaderValue(header: map<string, seq<string>>, name: string): Option<string>
  {
    if name in header && header[name] != [] then Some(Join(header[name], ", ")) else None
  }

  /** `xs[k]`, or nil past the end, as Ruby's multiple assignment from an array gives it. */
  function At(xs: seq<string>, k: nat): Option<string>
  {
    if k < |xs| then Some(xs[k]) else None
  }

  /**
   * `host, port = *req['Host'].split(':')`: the first two colon-separated parts of the
   * `Host` value. None when the request has no `Host`, since `split` is then called on nil.
   */
  function TunnelTarget(req: Request): (r: Option<(Option<string>, Option<string>)>)
    ensures r.None? <==> HeaderValue(req.header, "host").None?
    ensures r.Some? && r.value.1.Some? ==> r.value.0.Some?
    ensures r.Some? && r.value.0.Some? ==> ':' !in r.value.0.value
    ensures r.Some? && r.value.1.Some? ==> ':' !in r.value.1.value
  {
    match HeaderValue(req.header, "host")
    case None => None
    case Some(v) =>
      var parts := Split(v, ':');
      Some((At(parts, 0), At(parts, 1)))
  }

  /** An authority-form `Host: host:port` gives back exactly its host and its port. */
  lemma TunnelTargetOfAuthority(req: Request, host: string, port: string)
    requires "host" in req.header && req.header["host"] == [host + ":" + port]
    requires ':' !in host && ':' !in port && port != ""
    ensures TunnelTarget(req) == Some((Some(host), Some(port)))
  {
    SplitPair(host, ':', port);
  }

  /** A `Host` without a port gives the host and a nil port. */
  lemma TunnelTargetWithoutPort(req: Request, host: string)
    requires "host" in req.header && req.header["host"] == [host]
    requires ':' !in host && host != ""
    ensures TunnelTarget(req) == Some((Some(host), None))
  {
    SplitSingle(host, ':');
  }

  /** The value Net::HTTP's `resp[name]` gives: the first field with that name, or nil. */
  function Lookup(fields: seq<Field>, name: string): (r: Option<string>)
    ensures r.Some? <==> exists k :: 0 <= k < |fields| && fields[k].name == name
    ensures r.Some? ==> exists k :: 0 <= k < |fields| && fields[k] == Field(name, r.value)
  {
    if fields == [] then None
    else if fields[0].name == name then Some(fields[0].value)
    else
      var r := Lookup(fields[1..], name);
      assert forall k :: 1 <= k < |fields| ==> fields[k] == fields[1..][k - 1];
      r
  }

  /** This proxy's entry in a `Via` list. */
  const ProxyId: string := "1.1 ForwardProxy"

  /** `array.compact`: the present values, in order. */
  function Compact(xs: seq<Option<string>>): seq<string>
  {
    if xs == [] then []
    else (if xs[0].Some? then [xs[0].value] else []) + Compact(xs[1..])
  }

  /** `["1.1 ForwardProxy", resp['Via']].compact.join(', ')`. */
  function ViaValue(upstream: Option<string>): (v: string)
    ensures upstream.None? ==> v == ProxyId
    ensures upstream.Some? ==> v == ProxyId + ", " + upstream.value
  {
    var parts := [Some(ProxyId), upstream];
    assert Compact(parts[1..][1..]) == [];
    assert Compact(parts[1..]) == if upstream.Some? then [upstream.value] else [];
    assert Compact(parts) == [ProxyId] + Compact(parts[1..]);
    if upstream.Some? then
      var both := [ProxyId, upstream.value];
      assert Compact(parts) == both;
      assert both[1..] == [upstream.value];
      assert Join(both, ", ") == ProxyId + ", " + Join([upstream.value], ", ");
      Join(Compact(parts), ", ")
    else
      Join(Compact(parts), ", ")
  }

  /** What a downstream reader of a `Via` value finds after this proxy's entry. */
  function PriorVia(v: string): Option<string>
  {
    var n := |ProxyId| + 2;
    if |v| >= n && v[..n] == ProxyId + ", " then Some(v[n..]) else None
  }

  /** The `Via` value always starts with this proxy and keeps the upstream value intact after it. */
  lemma ViaRoundTrip(upstream: Option<string>)
    ensures ProxyId <= ViaValue(upstream)
    ensures PriorVia(ViaValue(upstream)) == upstream
  {
    var v := ViaValue(upstream);
    if upstream.Some? {
      assert v[..|ProxyId| + 2] == ProxyId + ", ";
      assert v[|ProxyId| + 2..] == upstream.value;
    }
  }

  /** `v.first`: nil for an empty list. */
  function First(values: seq<string>): Option<string>
  {
    if values == [] then None else Some(values[0])
  }

  /** `Hash[req.header.map { |k, v| [k, v.first] }]`. */
  function FirstValues(header: map<string, seq<string>>): (r: map<string, Option<string>>)
    ensures r.Keys == header.Keys
    ensures forall k :: k in header && header[k] != [] ==> r[k] == Some(header[k][0])
    ensures forall k :: k in header && header[k] == [] ==> r[k] == None
  {
    map k | k in header :: First(header[k])
  }

  /** `map_webrick_to_net_http_req`: same method and path, each header with its first value. */
  function MapRequest(req: Request): (r: Result<Outbound, Error>)
    ensures r.Ok? <==> req.requestMethod == MethodGet || req.requestMethod == MethodPost
    ensures r.Ok? ==> r.value.path == req.path && r.value.header == FirstValues(req.header)
    ensures r.Ok? ==> (r.value.verb == Get <==> req.requestMethod == MethodGet)
    ensures r.Err? ==> r.error == MethodNotImplemented
  {
    var header := FirstValues(req.header);
    if req.requestMethod == MethodGet then Ok(Outbound(Get, req.path, header))
    else if req.requestMethod == MethodPost then Ok(Outbound(Post, req.path, header))
    else Err(MethodNotImplemented)
  }

  /** The dispatcher sends to forwarding exactly the requests the outbound mapping accepts. */
  lemma ForwardRouteMaps(req: Request)
    ensures RouteOf(req.requestMethod) == Forward <==> MapRequest(req).Ok?
  {
  }

  function StatusLine(code: string): string
  {
    "HTTP/1.1 " + code
  }

  function ViaLine(resp: Response): string
  {
    "Via: " + ViaValue(Lookup(resp.fields, "via"))
  }

  /** `resp.each.map { |header, value| "#{header}: #{value}" }`, the upstream `via` included. */
  function FieldLines(fields: seq<Field>): (lines: seq<string>)
    ensures |lines| == |fields|
    ensures forall k :: 0 <= k < |fields| ==> lines[k] == fields[k].name + ": " + fields[k].value
  {
    if fields == [] then []
    else [fields[0].name + ": " + fields[0].value] + FieldLines(fields[1..])
  }

  /** The header section of the heredoc in `handle`, up to and including its blank line. */
  function ForwardHead(resp: Response): (h: string)
    ensures StatusLine(resp.code) + "\n" <= h
    ensures |h| >= 2 && h[|h| - 2..] == "\n\n"
  {
    StatusLine(resp.code) + "\n" + ViaLine(resp) + "\n" + Join(FieldLines(resp.fields), "\n") + "\n" + "\n"
  }

  /** The heredoc in `handle`, before `chomp`. */
  function ForwardHeredoc(resp: Response): (s: string)
    ensures ForwardHead(resp) <= s && |s| >= |ForwardHead(resp)| + 1 && s[|s| - 1] == '\n'
  {
    ForwardHead(resp) + resp.body.GetOr("") + "\n"
  }

  /** What `client_conn.puts <<~eos.chomp ... eos` writes for a forwarded response. */
  function ForwardText(resp: Response): (t: string)
    ensures ForwardHead(resp) <= t && t[|t| - 1] == '\n'
  {
    ChompKeepsHead(ForwardHead(resp), ForwardHeredoc(resp));
    Puts(Chomp(ForwardHeredoc(resp)))
  }

  /** `chomp` and `puts` keep a newline-terminated head that is followed by at least one more character. */
  lemma ChompKeepsHead(head: string, s: string)
    requires head <= s && |s| > |head| > 0 && head[|head| - 1] == '\n'
    ensures head <= Chomp(s) && head <= Puts(Chomp(s))
  {
    var chomped := Chomp(s);
    // `chomp` takes at most "\r\n"; the head's final newline cannot be the "\r" of one
    assert |s| - |chomped| == 2 ==> s[|s| - 2..] == "\r\n" && s[|s| - 2] == '\r';
    assert |s| == |head| + 1 ==> s[|s| - 2] == head[|head| - 1];
  }

  /**
   * The body as it reaches the client: one final "\r" is dropped, and a newline is
   * added unless what remains is empty or already ends in one.
   */
  function WireBody(body: string): (w: string)
    ensures body == [] ==> w == []
    ensures |body| > 0 && body[|body| - 1] != '\r' ==> w == Puts(body)
  {
    var kept := if |body| > 0 && body[|body| - 1] == '\r' then body[..|body| - 1] else body;
    if kept == [] || kept[|kept| - 1] == '\n' then kept else kept + "\n"
  }

  /** `chomp` and `puts` together touch only the body, never the header section before it. */
  lemma PutsChompAfterHead(head: string, body: string)
    requires |head| > 0 && head[|head| - 1] == '\n'
    ensures Puts(Chomp(head + body + "\n")) == head + WireBody(body)
  {
    var crEnd := |body| > 0 && body[|body| - 1] == '\r';
    var kept := if crEnd then body[..|body| - 1] else body;
    var cr := if crEnd then "\r" else "";
    assert body == kept + cr;
    ChompAfterHead(head, kept, cr);
    PutsAfterHead(head, kept);
  }

  /** `chomp` on the heredoc removes its final newline, and with it a "\r" ending the body. */
  lemma ChompAfterHead(head: string, kept: string, cr: string)
    requires |head| > 0 && head[|head| - 1] == '\n'
    requires cr == "\r" || (cr == "" && (kept == [] || kept[|kept| - 1] != '\r'))
    ensures Chomp(head + (kept + cr) + "\n") == head + kept
  {
    var x := head + kept;
    var s := head + (kept + cr) + "\n";
    assert s == x + cr + "\n";
    if cr == "\r" {
      assert s[|s| - 2..] == "\r\n";
      assert s[..|s| - 2] == x;
    } else {
      assert s == x + "\n";
      assert x[|x| - 1] == if kept == [] then '\n' else kept[|kept| - 1];
      assert s[|s| - 2] == x[|x| - 1];
      assert s[..|s| - 1] == x;
    }
  }

  /** `puts` after a newline-terminated head adds a newline only for a non-empty body lacking one. */
  lemma PutsAfterHead(head: string, kept: string)
    requires |head| > 0 && head[|head| - 1] == '\n'
    ensures Puts(head + kept) == head + (if kept == [] || kept[|kept| - 1] == '\n' then kept else kept + "\n")
  {
    var x := head + kept;
    assert x[|x| - 1] == if kept == [] then '\n' else kept[|kept| - 1];
    AppendAssociates(head, kept, "\n");
  }

  /** The forwarded text is the header section followed by the body as `WireBody` gives it. */
  lemma ForwardTextLayout(resp: Response)
    ensures ForwardText(resp) == ForwardHead(resp) + WireBody(resp.body.GetOr(""))
  {
    PutsChompAfterHead(ForwardHead(resp), resp.body.GetOr(""));
  }

  /** True when no piece of the response's status and headers contains a newline. */
  predicate SingleLineHead(resp: Response)
  {
    && '\n' !in resp.code
    && forall k :: 0 <= k < |resp.fields| ==> '\n' !in resp.fields[k].name && '\n' !in resp.fields[k].value
  }

  /** Status, `Via` and header lines of a single-line head are each one non-empty line. */
  lemma HeadLinesPlain(resp: Response)
    requires SingleLineHead(resp)
    ensures PlainLines([StatusLine(resp.code), ViaLine(resp)] + FieldLines(resp.fields))
  {
    var up := Lookup(resp.fields, "via");
    if up.Some? {
      var k :| 0 <= k < |resp.fields| && resp.fields[k] == Field("via", up.value);
    }
    assert '\n' !in ViaLine(resp);
    var lines := [StatusLine(resp.code), ViaLine(resp)] + FieldLines(resp.fields);
    forall k | 2 <= k < |lines| ensures lines[k] != "" && '\n' !in lines[k] {
      assert lines[k] == FieldLines(resp.fields)[k - 2];
    }
  }

  /** Two lines in front of a list add themselves, each terminated, in front of its text. */
  lemma UnlinesTwoThen(first: string, second: string, rest: seq<string>)
    ensures Unlines([first, second] + rest) == first + "\n" + second + "\n" + Unlines(rest)
  {
    var lines := [first, second] + rest;
    assert lines[1..] == [second] + rest;
    assert lines[1..][1..] == rest;
    assert Unlines(lines[1..]) == second + "\n" + Unlines(rest);
    AppendAssociates(first + "\n", second + "\n", Unlines(rest));
  }

  /** The header section is the status, `Via` and header lines, each ended by "\n", then a blank line. */
  lemma ForwardHeadLines(resp: Response)
    ensures resp.fields != [] ==>
      ForwardHead(resp) == Unlines([StatusLine(resp.code), ViaLine(resp)] + FieldLines(resp.fields)) + "\n"
    ensures resp.fields == [] ==>
      ForwardHead(resp) == Unlines([StatusLine(resp.code), ViaLine(resp)]) + "\n" + "\n"
  {
    var status, via, fieldLines := StatusLine(resp.code), ViaLine(resp), FieldLines(resp.fields);
    var lines := [status, via] + fieldLines;
    var joined := Join(fieldLines, "\n");
    var prefix := status + "\n" + via + "\n";
    assert ForwardHead(resp) == prefix + joined + "\n" + "\n";
    UnlinesTwoThen(status, via, fieldLines);
    if resp.fields != [] {
      JoinUnlines(fieldLines);
      AppendAssociates(prefix, joined, "\n");
    } else {
      assert lines == [status, via];
      assert joined == "" && Unlines(fieldLines) == "";
    }
  }

  /**
   * A client reading the forwarded text finds the status line, then the `Via` line,
   * then every upstream header line in order, then the body. With no upstream headers
   * the header section ends right after `Via`, and the body gains a leading newline.
   */
  lemma ClientReadsForward(resp: Response)
    requires SingleLineHead(resp)
    ensures resp.fields != [] ==>
      ReadHead(ForwardText(resp)) ==
        Some(([StatusLine(resp.code), ViaLine(resp)] + FieldLines(resp.fields), WireBody(resp.body.GetOr(""))))
    ensures resp.fields == [] ==>
      ReadHead(ForwardText(resp)) ==
        Some(([StatusLine(resp.code), ViaLine(resp)], "\n" + WireBody(resp.body.GetOr(""))))
  {
    var lines := [StatusLine(resp.code), ViaLine(resp)] + FieldLines(resp.fields);
    var wire := WireBody(resp.body.GetOr(""));
    ForwardTextLayout(resp);
    ForwardHeadLines(resp);
    HeadLinesPlain(resp);
    if resp.fields == [] {
      var short := [StatusLine(resp.code), ViaLine(resp)];
      assert lines == short;
      ReadHeadOfLayout(ForwardText(resp), ForwardHead(resp), short, "\n", wire);
    } else {
      ReadHeadOfHead(ForwardText(resp), ForwardHead(resp), lines, wire);
    }
  }

  /** A header section of terminated plain lines and an empty line, then anything, reads back as those lines and the rest. */
  lemma ReadHeadOfHead(text: string, head: string, lines: seq<string>, rest: string)
    requires PlainLines(lines)
    requires head == Unlines(lines) + "\n" && text == head + rest
    ensures ReadHead(text) == Some((lines, rest))
  {
    ReadHeadUnlines(lines, rest);
  }

  /** A text made of terminated plain lines, an empty line, then anything, reads back as those lines and the rest. */
  lemma ReadHeadOfLayout(text: string, head: string, lines: seq<string>, extra: string, rest: string)
    requires PlainLines(lines)
    requires head == Unlines(lines) + "\n" + extra && text == head + rest
    ensures ReadHead(text) == Some((lines, extra + rest))
  {
    assert text == Unlines(lines) + "\n" + (extra + rest);
    ReadHeadUnlines(lines, extra + rest);
  }
}
