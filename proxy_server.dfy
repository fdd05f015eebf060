/**
 * The handling of one accepted connection by `Server`: the block scheduled for each
 * client in `start`, `handle_tunnel` and `handle`.
 *
 * The client socket is a `Connection` object with the text written to it and a count
 * of `close` calls. What the network does is given as inputs: the parse outcome, whether
 * the destination of a CONNECT opens, the bytes each tunnel direction copies, and the
 * upstream answer to a forwarded request. `Serve` is the specification of the block as an
 * ordered list of events; the methods are proved to act as it says, and the lemmas state
 * what every connection goes through.
 */
module ProxyServer {
  import opened Common
  import opened RubyText
  import opened ProxyWire

  /** The bytes each direction of a tunnel copied before its source ended or failed. */
  datatype Relay = Relay(toClient: string, toDest: string)

  /** Whether `TCPSocket.new(host, port)` connects. */
  type Connector = (Option<string>, Option<string>) -> bool

  /** What `Net::HTTP.start(host, port) { |http| http.request(out) }` returns or raises. */
  type Transport = (string, int, Outbound) -> Result<Response, Error>

  /** What the handling of one connection does, in order. */
  datatype Event =
    | DestOpened(host: Option<string>, port: Option<string>)
    | Sent(text: string)      // a write to the client that succeeded
    | Relayed(relay: Relay)   // both tunnel copy threads, run and joined
    | DestClosed
    | ClientClosed

  /** The events of a step, and the exception it raised, if any. */
  datatype Exchange = Exchange(events: seq<Event>, raised: Option<Error>)

  /** Written to the client once the destination of a CONNECT is open. */
  const TunnelEstablished: string := "HTTP/1.1 200 OK\n\n"

  /** What the `rescue` clause writes to the client. */
  const BadGateway: string := "HTTP/1.1 502\n"

  /** `client_conn.puts "HTTP/1.1 502\n".chomp` writes exactly the 502 status line. */
  lemma BadGatewayWritten()
    ensures Puts(Chomp("HTTP/1.1 502\n")) == BadGateway
  {
    var line := "HTTP/1.1 502\n";
    assert line[|line| - 2..] == "2\n";
    assert Chomp(line) == "HTTP/1.1 502";
  }

  /** The client socket: what was written to it, how often it was closed, and whether writes go through. */
  class Connection {
    var written: string
    var closes: nat
    const writable: bool

    constructor (writable: bool)
      ensures this.writable == writable && written == [] && closes == 0
    {
      this.writable := writable;
      written := [];
      closes := 0;
    }

    /** `write`: appends the text, or raises when the peer is gone or the socket is closed. */
    method Write(text: string) returns (ok: bool)
      modifies this
      ensures ok == (writable && old(closes) == 0)
      ensures written == if ok then old(written) + text else old(written)
      ensures closes == old(closes)
    {
      ok := writable && closes == 0;
      if ok {
        written := written + text;
      }
    }

    /** `close`: closing a closed socket again does nothing in Ruby, so every call is just counted. */
    method Close()
      modifies this
      ensures closes == old(closes) + 1
      ensures written == old(written)
    {
      closes := closes + 1;
    }
  }

  /** What the client receives through one event. */
  function ToClient(e: Event): string
  {
    match e
    case Sent(text) => text
    case Relayed(relay) => relay.toClient
    case _ => ""
  }

  /** What the tunnel destination receives through one event. */
  function ToDest(e: Event): string
  {
    if e.Relayed? then e.relay.toDest else ""
  }

  /** What the client receives from a list of events. */
  function ClientText(events: seq<Event>): string
  {
    if events == [] then "" else ToClient(events[0]) + ClientText(events[1..])
  }

  /** What the tunnel destination receives from a list of events. */
  function DestText(events: seq<Event>): string
  {
    if events == [] then "" else ToDest(events[0]) + DestText(events[1..])
  }

  /** How many events of a list are `e`. */
  function Occurrences(events: seq<Event>, e: Event): nat
  {
    if events == [] then 0 else (if events[0] == e then 1 else 0) + Occurrences(events[1..], e)
  }

  lemma {:induction false} ClientTextAppend(a: seq<Event>, b: seq<Event>)
    ensures ClientText(a + b) == ClientText(a) + ClientText(b)
  {
    if a == [] {
      assert a + b == b;
    } else {
      assert (a + b)[0] == a[0];
      assert (a + b)[1..] == a[1..] + b;
      ClientTextAppend(a[1..], b);
    }
  }

  lemma {:induction false} DestTextAppend(a: seq<Event>, b: seq<Event>)
    ensures DestText(a + b) == DestText(a) + DestText(b)
  {
    if a == [] {
      assert a + b == b;
    } else {
      assert (a + b)[0] == a[0];
      assert (a + b)[1..] == a[1..] + b;
      DestTextAppend(a[1..], b);
    }
  }

  lemma {:induction false} OccurrencesAppend(a: seq<Event>, b: seq<Event>, e: Event)
    ensures Occurrences(a + b, e) == Occurrences(a, e) + Occurrences(b, e)
  {
    if a == [] {
      assert a + b == b;
    } else {
      assert (a + b)[0] == a[0];
      assert (a + b)[1..] == a[1..] + b;
      OccurrencesAppend(a[1..], b, e);
    }
  }

  /** `handle_tunnel`, as events. */
  function TunnelSpec(req: Request, connect: Connector, relay: Relay, writable: bool): (x: Exchange)
    ensures OpensDest(x) <==> TunnelTarget(req).Some? && connect(TunnelTarget(req).value.0, TunnelTarget(req).value.1)
    ensures x.raised.None? <==> OpensDest(x) && writable
    ensures x.events != [] ==> OpensDest(x) && x.events[|x.events| - 1] == DestClosed
  {
    match TunnelTarget(req)
    // `split` on a nil `Host` raises; `dest_conn.close` in `ensure` then raises on nil
    case None => Exchange([], Some(NilReceiver))
    case Some(target) =>
      if !connect(target.0, target.1) then
        // `TCPSocket.new` raised; again `ensure` calls `close` on nil
        Exchange([], Some(NilReceiver))
      else if !writable then
        Exchange([DestOpened(target.0, target.1), DestClosed], Some(WriteFailed))
      else
        Exchange([DestOpened(target.0, target.1), Sent(TunnelEstablished), Relayed(relay), DestClosed], None)
  }

  /** `handle`, as events: the outbound request goes to the transport, its answer to the client. */
  function ForwardSpec(req: Request, transport: Transport, writable: bool): (x: Exchange)
    ensures x.raised.None? <==>
      MapRequest(req).Ok? && transport(req.host, req.port, MapRequest(req).value).Ok? && writable
    ensures x.raised.Some? ==> x.events == []
    ensures |x.events| <= 1 && !OpensDest(x)
  {
    match MapRequest(req)
    case Err(e) => Exchange([], Some(e))
    case Ok(out) =>
      match transport(req.host, req.port, out)
      case Err(e) => Exchange([], Some(e))
      case Ok(resp) =>
        if writable then Exchange([Sent(ForwardText(resp))], None)
        else Exchange([], Some(WriteFailed))
  }

  /** The `begin` part of the per-connection block: parse, then route. */
  function HandlerSpec(parsed: Result<Request, Error>, connect: Connector, relay: Relay,
                       transport: Transport, writable: bool): (x: Exchange)
    ensures parsed.Err? ==> x == Exchange([], Some(parsed.error))
    ensures OpensDest(x) ==> parsed.Ok? && RouteOf(parsed.value.requestMethod) == Tunnel
    ensures x.raised.Some? && writable ==> x.events == []
  {
    match parsed
    case Err(e) => Exchange([], Some(e))
    case Ok(req) =>
      match RouteOf(req.requestMethod)
      case Tunnel => TunnelSpec(req, connect, relay, writable)
      case Forward => ForwardSpec(req, transport, writable)
      case Unsupported => Exchange([], Some(MethodNotImplemented))
  }

  /**
   * The whole per-connection block: on an exception the `rescue` clause writes the 502
   * line, and the `ensure` clause closes the client. An exception raised by the 502 write
   * itself leaves the block, and the worker thread running it.
   */
  function Serve(parsed: Result<Request, Error>, connect: Connector, relay: Relay,
                 transport: Transport, writable: bool): (x: Exchange)
    ensures x.events != [] && x.events[|x.events| - 1] == ClientClosed
    ensures x.raised.Some? ==> x.raised == Some(WriteFailed) && !writable
  {
    Cleanup(HandlerSpec(parsed, connect, relay, transport, writable), writable)
  }

  /** The `rescue` and `ensure` clauses after a handler step. */
  function Cleanup(handled: Exchange, writable: bool): (x: Exchange)
    ensures |x.events| > |handled.events| && x.events[..|handled.events|] == handled.events
    ensures x.events[|x.events| - 1] == ClientClosed
    ensures x.raised.Some? <==> handled.raised.Some? && !writable
  {
    match handled.raised
    case None => Exchange(handled.events + [ClientClosed], None)
    case Some(_) =>
      if writable then Exchange(handled.events + [Sent(BadGateway), ClientClosed], None)
      else Exchange(handled.events + [ClientClosed], Some(WriteFailed))
  }

  /** The tallies of a list are those of its first event followed by those of the rest. */
  lemma TalliesCons(e: Event, rest: seq<Event>)
    ensures ClientText([e] + rest) == ToClient(e) + ClientText(rest)
    ensures DestText([e] + rest) == ToDest(e) + DestText(rest)
    ensures Occurrences([e] + rest, ClientClosed) == (if e == ClientClosed then 1 else 0) + Occurrences(rest, ClientClosed)
  {
    assert ([e] + rest)[0] == e;
    assert ([e] + rest)[1..] == rest;
  }

  /** What an opened tunnel sends each way, and that it does not close the client. */
  lemma OpenedTunnelTallies(host: Option<string>, port: Option<string>, relay: Relay)
    ensures var events := [DestOpened(host, port), Sent(TunnelEstablished), Relayed(relay), DestClosed];
      && ClientText(events) == TunnelEstablished + relay.toClient
      && DestText(events) == relay.toDest
      && Occurrences(events, ClientClosed) == 0
  {
    var last: seq<Event> := [];
    TalliesCons(DestClosed, last);
    TalliesCons(Relayed(relay), [DestClosed] + last);
    TalliesCons(Sent(TunnelEstablished), [Relayed(relay)] + ([DestClosed] + last));
    TalliesCons(DestOpened(host, port), [Sent(TunnelEstablished)] + ([Relayed(relay)] + ([DestClosed] + last)));
    assert [DestOpened(host, port)] + ([Sent(TunnelEstablished)] + ([Relayed(relay)] + ([DestClosed] + last)))
        == [DestOpened(host, port), Sent(TunnelEstablished), Relayed(relay), DestClosed];
  }

  /** A tunnel whose 200 line could not be written sends nothing either way. */
  lemma RefusedTunnelTallies(host: Option<string>, port: Option<string>)
    ensures ClientText([DestOpened(host, port), DestClosed]) == ""
    ensures DestText([DestOpened(host, port), DestClosed]) == ""
  {
    var last: seq<Event> := [];
    TalliesCons(DestClosed, last);
    TalliesCons(DestOpened(host, port), [DestClosed] + last);
    assert [DestOpened(host, port)] + ([DestClosed] + last) == [DestOpened(host, port), DestClosed];
  }

  /** `handle_tunnel` once the destination opened: what each side receives, by whether the client accepts writes. */
  lemma TunnelOpenedSpec(req: Request, connect: Connector, relay: Relay, writable: bool)
    requires TunnelTarget(req).Some?
    requires connect(TunnelTarget(req).value.0, TunnelTarget(req).value.1)
    ensures OpensDest(TunnelSpec(req, connect, relay, writable))
    ensures writable ==> ClientText(TunnelSpec(req, connect, relay, writable).events) == TunnelEstablished + relay.toClient
    ensures writable ==> DestText(TunnelSpec(req, connect, relay, writable).events) == relay.toDest
    ensures writable ==> TunnelSpec(req, connect, relay, writable).raised == None
    ensures !writable ==> ClientText(TunnelSpec(req, connect, relay, writable).events) == ""
    ensures !writable ==> DestText(TunnelSpec(req, connect, relay, writable).events) == ""
    ensures !writable ==> TunnelSpec(req, connect, relay, writable).raised == Some(WriteFailed)
  {
    var t := TunnelTarget(req).value;
    OpenedTunnelTallies(t.0, t.1, relay);
    RefusedTunnelTallies(t.0, t.1);
  }

  /** The handler never closes the client itself. */
  lemma HandlerLeavesClientOpen(parsed: Result<Request, Error>, connect: Connector, relay: Relay,
                                transport: Transport, writable: bool)
    ensures Occurrences(HandlerSpec(parsed, connect, relay, transport, writable).events, ClientClosed) == 0
  {
    var events := HandlerSpec(parsed, connect, relay, transport, writable).events;
    assert forall k :: 0 <= k < |events| ==> events[k] != ClientClosed;
    if |events| == 4 {
      assert Occurrences(events[3..], ClientClosed) == 0;
      assert Occurrences(events[2..], ClientClosed) == 0;
      assert Occurrences(events[1..], ClientClosed) == 0;
    } else if |events| == 2 {
      assert Occurrences(events[1..], ClientClosed) == 0;
    }
  }

  /** On every path the client is closed exactly once, and as the very last thing. */
  lemma ServeClosesClientOnce(parsed: Result<Request, Error>, connect: Connector, relay: Relay,
                              transport: Transport, writable: bool)
    ensures var events := Serve(parsed, connect, relay, transport, writable).events;
      |events| > 0 && events[|events| - 1] == ClientClosed && Occurrences(events, ClientClosed) == 1
  {
    var handled := HandlerSpec(parsed, connect, relay, transport, writable);
    HandlerLeavesClientOpen(parsed, connect, relay, transport, writable);
    var tail := if handled.raised.Some? && writable then [Sent(BadGateway), ClientClosed] else [ClientClosed];
    assert Serve(parsed, connect, relay, transport, writable).events == handled.events + tail;
    OccurrencesAppend(handled.events, tail, ClientClosed);
    assert Occurrences(tail, ClientClosed) == 1 by {
      assert Occurrences([ClientClosed], ClientClosed) == 1;
      if |tail| == 2 {
        assert tail[1..] == [ClientClosed];
        assert tail[0] != ClientClosed;
      }
    }
  }

  /** A handler that raised had not written anything to a client that accepts writes. */
  lemma FailedHandlerSentNothing(parsed: Result<Request, Error>, connect: Connector, relay: Relay,
                                 transport: Transport)
    requires HandlerSpec(parsed, connect, relay, transport, true).raised.Some?
    ensures HandlerSpec(parsed, connect, relay, transport, true).events == []
  {
  }

  /**
   * Whatever goes wrong (parse, routing, tunnel or upstream), a client that accepts writes
   * receives exactly the line "HTTP/1.1 502" and nothing else; the error itself is not sent.
   */
  lemma ServeFailureAnswer(parsed: Result<Request, Error>, connect: Connector, relay: Relay,
                           transport: Transport)
    requires HandlerSpec(parsed, connect, relay, transport, true).raised.Some?
    ensures ClientText(Serve(parsed, connect, relay, transport, true).events) == "HTTP/1.1 502\n"
    ensures Serve(parsed, connect, relay, transport, true).raised == None
  {
    var tail := [Sent(BadGateway), ClientClosed];
    FailedHandlerSentNothing(parsed, connect, relay, transport);
    assert Serve(parsed, connect, relay, transport, true).events == tail;
    CleanupTallies(tail);
  }

  /** A HEAD request is not forwarded: a client that accepts writes receives the bare 502 line. */
  lemma HeadGetsBadGateway(req: Request, connect: Connector, relay: Relay, transport: Transport)
    requires req.requestMethod == "HEAD"
    ensures ClientText(Serve(Ok(req), connect, relay, transport, true).events) == "HTTP/1.1 502\n"
  {
    assert RouteOf(req.requestMethod) == Unsupported;
    ServeFailureAnswer(Ok(req), connect, relay, transport);
  }

  /** When the handler raises: exactly on a parse failure, an unsupported method, a failed tunnel setup or a failed upstream exchange. */
  lemma HandlerRaisesWhen(parsed: Result<Request, Error>, connect: Connector, relay: Relay, transport: Transport)
    ensures HandlerSpec(parsed, connect, relay, transport, true).raised.Some? <==>
      || parsed.Err?
      || RouteOf(parsed.value.requestMethod) == Unsupported
      || (RouteOf(parsed.value.requestMethod) == Tunnel &&
          (TunnelTarget(parsed.value).None? ||
           !connect(TunnelTarget(parsed.value).value.0, TunnelTarget(parsed.value).value.1)))
      || (RouteOf(parsed.value.requestMethod) == Forward &&
          transport(parsed.value.host, parsed.value.port, MapRequest(parsed.value).value).Err?)
  {
  }

  /** An exception leaves the block exactly when the client no longer accepts writes, and the client then receives nothing. */
  lemma ServeEscapesOnlyFromDeadClient(parsed: Result<Request, Error>, connect: Connector, relay: Relay,
                                       transport: Transport, writable: bool)
    ensures Serve(parsed, connect, relay, transport, writable).raised.Some? <==> !writable
    ensures !writable ==> Serve(parsed, connect, relay, transport, writable).raised == Some(WriteFailed)
    ensures !writable ==> ClientText(Serve(parsed, connect, relay, transport, writable).events) == ""
  {
    if !writable {
      var handled := HandlerSpec(parsed, connect, relay, transport, writable);
      ClientTextAppend(handled.events, [ClientClosed]);
      assert ClientText(handled.events) == "" by {
        if |handled.events| == 2 {
          assert handled.events[1..] == [DestClosed];
        }
      }
    }
  }

  /** A GET or POST answered upstream reaches a writable client as the forwarded text of that answer. */
  lemma ServeForwardAnswer(req: Request, connect: Connector, relay: Relay, transport: Transport, resp: Response)
    requires RouteOf(req.requestMethod) == Forward
    requires transport(req.host, req.port, MapRequest(req).value) == Ok(resp)
    ensures ClientText(Serve(Ok(req), connect, relay, transport, true).events) == ForwardText(resp)
    ensures Serve(Ok(req), connect, relay, transport, true).raised == None
  {
    var text := ForwardText(resp);
    assert ForwardSpec(req, transport, true) == Exchange([Sent(text)], None);
    assert HandlerSpec(Ok(req), connect, relay, transport, true) == Exchange([Sent(text)], None);
    ClientTextAppend([Sent(text)], [ClientClosed]);
  }

  /**
   * A CONNECT whose destination opens: the client receives the 200 line and then what the
   * destination sent, the destination receives what the client sent, and no 502 is written.
   */
  lemma ServeTunnelAnswer(req: Request, connect: Connector, relay: Relay, transport: Transport)
    requires RouteOf(req.requestMethod) == Tunnel
    requires TunnelTarget(req).Some?
    requires connect(TunnelTarget(req).value.0, TunnelTarget(req).value.1)
    ensures ClientText(Serve(Ok(req), connect, relay, transport, true).events) == TunnelEstablished + relay.toClient
    ensures DestText(Serve(Ok(req), connect, relay, transport, true).events) == relay.toDest
    ensures Serve(Ok(req), connect, relay, transport, true).raised == None
  {
    var target := TunnelTarget(req).value;
    var established := [DestOpened(target.0, target.1), Sent(TunnelEstablished), Relayed(relay), DestClosed];
    assert HandlerSpec(Ok(req), connect, relay, transport, true) == Exchange(established, None);
    OpenedTunnelTallies(target.0, target.1, relay);
    ClientTextAppend(established, [ClientClosed]);
    DestTextAppend(established, [ClientClosed]);
  }

  /** A forwarded answer is never mistaken for the tunnel's 200 line: it is longer. */
  lemma ForwardTextNotTunnelLine(resp: Response)
    ensures ForwardText(resp) != TunnelEstablished
  {
    ForwardTextLayout(resp);
    var via := ViaValue(Lookup(resp.fields, "via"));
    assert |ViaLine(resp)| == 5 + |via| >= 5 + |ProxyId|;
    var head := ForwardHead(resp);
    assert |head| >= |ViaLine(resp)|;
    assert |ForwardText(resp)| >= |head| > |TunnelEstablished|;
  }

  /**
   * The tunnel discipline of a list of events: the 200 line is only sent after a destination
   * opened, an opened destination is closed later (before the last event), and the 200 and
   * 502 lines are never both sent.
   */
  predicate TunnelOrdered(events: seq<Event>)
  {
    && (forall i :: 0 <= i < |events| && events[i] == Sent(TunnelEstablished) ==>
          exists j :: 0 <= j < i && events[j].DestOpened?)
    && (forall i :: 0 <= i < |events| && events[i].DestOpened? ==>
          exists j :: i < j < |events| - 1 && events[j] == DestClosed)
    && !(Sent(TunnelEstablished) in events && Sent(BadGateway) in events)
  }

  /** Events that neither open a destination nor send the 200 line keep the discipline. */
  lemma NoTunnelOrdered(events: seq<Event>)
    requires forall i :: 0 <= i < |events| ==> !events[i].DestOpened? && events[i] != Sent(TunnelEstablished)
    ensures TunnelOrdered(events)
  {
  }

  /** An opened tunnel keeps the discipline, whether or not the 200 line could be written. */
  lemma OpenedTunnelOrdered(host: Option<string>, port: Option<string>, relay: Relay)
    ensures TunnelOrdered([DestOpened(host, port), Sent(TunnelEstablished), Relayed(relay), DestClosed, ClientClosed])
    ensures TunnelOrdered([DestOpened(host, port), DestClosed, ClientClosed])
  {
    assert |TunnelEstablished| != |BadGateway|;
    var events := [DestOpened(host, port), Sent(TunnelEstablished), Relayed(relay), DestClosed, ClientClosed];
    assert events[3] == DestClosed;
    forall i | 0 <= i < |events| && events[i] == Sent(TunnelEstablished)
      ensures exists j :: 0 <= j < i && events[j].DestOpened?
    {
      assert events[0].DestOpened? && 0 < i;
    }
    var refused := [DestOpened(host, port), DestClosed, ClientClosed];
    assert refused[1] == DestClosed;
  }

  /** Tunnel discipline on every path through the per-connection block. */
  lemma ServeTunnelOrder(parsed: Result<Request, Error>, connect: Connector, relay: Relay,
                         transport: Transport, writable: bool)
    ensures TunnelOrdered(Serve(parsed, connect, relay, transport, writable).events)
  {
    if OpensDest(HandlerSpec(parsed, connect, relay, transport, writable)) {
      OpenedServeOrdered(parsed.value, connect, relay, transport, writable);
    } else {
      UnopenedServeOrdered(parsed, connect, relay, transport, writable);
    }
  }

  /** The block around a tunnel whose destination opened keeps the discipline. */
  lemma OpenedServeOrdered(req: Request, connect: Connector, relay: Relay, transport: Transport, writable: bool)
    requires RouteOf(req.requestMethod) == Tunnel
    requires TunnelTarget(req).Some? && connect(TunnelTarget(req).value.0, TunnelTarget(req).value.1)
    ensures TunnelOrdered(Serve(Ok(req), connect, relay, transport, writable).events)
  {
    var events := Serve(Ok(req), connect, relay, transport, writable).events;
    var t := TunnelTarget(req).value;
    OpenedTunnelOrdered(t.0, t.1, relay);
    if writable {
      assert events == [DestOpened(t.0, t.1), Sent(TunnelEstablished), Relayed(relay), DestClosed, ClientClosed];
    } else {
      assert events == [DestOpened(t.0, t.1), DestClosed, ClientClosed];
    }
  }

  /** A block that opened no destination never sends the 200 line, so it keeps the discipline. */
  lemma UnopenedServeOrdered(parsed: Result<Request, Error>, connect: Connector, relay: Relay,
                             transport: Transport, writable: bool)
    requires !OpensDest(HandlerSpec(parsed, connect, relay, transport, writable))
    ensures TunnelOrdered(Serve(parsed, connect, relay, transport, writable).events)
  {
    UnopenedHandlerSent(parsed, connect, relay, transport, writable);
    CleanupOrdered(HandlerSpec(parsed, connect, relay, transport, writable), writable);
  }

  /** A handler that opened no destination sent at most one text, and not the 200 line. */
  lemma UnopenedHandlerSent(parsed: Result<Request, Error>, connect: Connector, relay: Relay,
                            transport: Transport, writable: bool)
    requires !OpensDest(HandlerSpec(parsed, connect, relay, transport, writable))
    ensures var events := HandlerSpec(parsed, connect, relay, transport, writable).events;
      events == [] || (|events| == 1 && events[0].Sent? && events[0] != Sent(TunnelEstablished))
  {
    if parsed.Ok? && RouteOf(parsed.value.requestMethod) == Forward {
      var req := parsed.value;
      var answer := transport(req.host, req.port, MapRequest(req).value);
      if answer.Ok? {
        ForwardTextNotTunnelLine(answer.value);
      }
    }
  }

  /** The cleanup after a step that sent at most one text, other than the 200 line, keeps the discipline. */
  lemma CleanupOrdered(handled: Exchange, writable: bool)
    requires handled.events == [] ||
      (|handled.events| == 1 && handled.events[0].Sent? && handled.events[0] != Sent(TunnelEstablished))
    ensures TunnelOrdered(Cleanup(handled, writable).events)
  {
    assert |TunnelEstablished| != |BadGateway|;
    NoTunnelOrdered(Cleanup(handled, writable).events);
  }

  /**
   * `handle_tunnel`: split `Host`, open the destination, write the 200 line, run both copy
   * directions, and close the destination in `ensure`. The client stays open.
   */
  method HandleTunnel(client: Connection, req: Request, connect: Connector, relay: Relay)
    returns (raised: Option<Error>, dest: Connection?)
    requires client.closes == 0
    modifies client
    ensures client.closes == 0
    ensures client.written == old(client.written) + ClientText(TunnelSpec(req, connect, relay, client.writable).events)
    ensures raised == TunnelSpec(req, connect, relay, client.writable).raised
    ensures dest != null <==> OpensDest(TunnelSpec(req, connect, relay, client.writable))
    ensures dest != null ==> fresh(dest) && dest.closes == 1
    ensures dest != null ==> dest.written == DestText(TunnelSpec(req, connect, relay, client.writable).events)
  {
    var target := TunnelTarget(req);
    if target.None? {
      return Some(NilReceiver), null;
    }
    var host, port := target.value.0, target.value.1;
    if !connect(host, port) {
      return Some(NilReceiver), null;
    }
    TunnelOpenedSpec(req, connect, relay, client.writable);
    raised, dest := RunTunnel(client, relay);
  }

  /**
   * The part of `handle_tunnel` after `TCPSocket.new` succeeded: write the 200 line, run both
   * copy directions, and close the destination in `ensure`.
   */
  method RunTunnel(client: Connection, relay: Relay) returns (raised: Option<Error>, dest: Connection)
    requires client.closes == 0
    modifies client
    ensures client.closes == 0
    ensures client.writable ==> client.written == old(client.written) + (TunnelEstablished + relay.toClient)
    ensures !client.writable ==> client.written == old(client.written)
    ensures raised == if client.writable then None else Some(WriteFailed)
    ensures fresh(dest) && dest.closes == 1
    ensures dest.written == if client.writable then relay.toDest else ""
  {
    ghost var before := client.written;
    dest := new Connection(true);
    var ok := client.Write(TunnelEstablished);
    if ok {
      // the two `transfer` threads, both joined before going on
      var _ := client.Write(relay.toClient);
      AppendAssociates(before, TunnelEstablished, relay.toClient);
      var _ := dest.Write(relay.toDest);
      raised := None;
    } else {
      raised := Some(WriteFailed);
    }
    dest.Close();
  }

  /** True when a step opened a tunnel destination. */
  predicate OpensDest(x: Exchange)
  {
    x.events != [] && x.events[0].DestOpened?
  }

  /**
   * `handle`: build the outbound request, hand it to Net::HTTP, and write the answer to the
   * client with one `puts`.
   */
  method Handle(client: Connection, req: Request, transport: Transport) returns (raised: Option<Error>)
    requires client.closes == 0
    modifies client
    ensures client.closes == 0
    ensures client.written == old(client.written) + ClientText(ForwardSpec(req, transport, client.writable).events)
    ensures raised == ForwardSpec(req, transport, client.writable).raised
  {
    var outbound := MapRequest(req);
    if outbound.Err? {
      return Some(outbound.error);
    }
    var answer := transport(req.host, req.port, outbound.value);
    if answer.Err? {
      return Some(answer.error);
    }
    var ok := client.Write(ForwardText(answer.value));
    raised := if ok then None else Some(WriteFailed);
    assert ok ==> ClientText([Sent(ForwardText(answer.value))]) == ForwardText(answer.value);
  }

  /** The `begin` part of the per-connection block: parse, route, and hand over. */
  method Dispatch(client: Connection, parsed: Result<Request, Error>, connect: Connector,
                  relay: Relay, transport: Transport)
    returns (raised: Option<Error>, dest: Connection?)
    requires client.closes == 0
    modifies client
    ensures client.closes == 0
    ensures client.written == old(client.written) + ClientText(HandlerSpec(parsed, connect, relay, transport, client.writable).events)
    ensures raised == HandlerSpec(parsed, connect, relay, transport, client.writable).raised
    ensures dest != null <==> OpensDest(HandlerSpec(parsed, connect, relay, transport, client.writable))
    ensures dest != null ==> fresh(dest) && dest.closes == 1
    ensures dest != null ==> dest.written == DestText(HandlerSpec(parsed, connect, relay, transport, client.writable).events)
  {
    dest := null;
    match parsed {
      case Err(e) =>
        raised := Some(e);
      case Ok(req) =>
        match RouteOf(req.requestMethod) {
          case Tunnel =>
            raised, dest := HandleTunnel(client, req, connect, relay);
          case Forward =>
            raised := Handle(client, req, transport);
          case Unsupported =>
            raised := Some(MethodNotImplemented);
        }
    }
  }

  /** What the `rescue` and `ensure` clauses add: nothing reaches the destination, and only the 502 line the client. */
  lemma CleanupTallies(tail: seq<Event>)
    requires tail == [ClientClosed] || tail == [Sent(BadGateway), ClientClosed]
    ensures DestText(tail) == ""
    ensures ClientText(tail) == if |tail| == 2 then BadGateway else ""
  {
    var none: seq<Event> := [];
    TalliesCons(ClientClosed, none);
    assert [ClientClosed] + none == [ClientClosed];
    if |tail| == 2 {
      TalliesCons(Sent(BadGateway), [ClientClosed]);
      assert [Sent(BadGateway)] + [ClientClosed] == tail;
    }
  }

  /** The cleanup sends the 502 line when the step raised and the client accepts writes, and nothing else. */
  lemma CleanupText(handled: Exchange, writable: bool)
    ensures ClientText(Cleanup(handled, writable).events) ==
      ClientText(handled.events) + (if handled.raised.Some? && writable then BadGateway else "")
    ensures DestText(Cleanup(handled, writable).events) == DestText(handled.events)
    ensures Cleanup(handled, writable).raised == if handled.raised.Some? && !writable then Some(WriteFailed) else None
    ensures OpensDest(Cleanup(handled, writable)) == OpensDest(handled)
  {
    var tail := if handled.raised.Some? && writable then [Sent(BadGateway), ClientClosed] else [ClientClosed];
    assert Cleanup(handled, writable).events == handled.events + tail;
    if handled.events != [] {
      assert (handled.events + tail)[0] == handled.events[0];
    }
    CleanupTallies(tail);
    ClientTextAppend(handled.events, tail);
    DestTextAppend(handled.events, tail);
  }

  /** The whole block in terms of its `begin` part: the 502 line is added after a failure, and an exception escapes only from a client that refuses writes. */
  lemma ServeText(parsed: Result<Request, Error>, connect: Connector, relay: Relay,
                  transport: Transport, writable: bool)
    ensures var handled := HandlerSpec(parsed, connect, relay, transport, writable);
      && ClientText(Serve(parsed, connect, relay, transport, writable).events) ==
           ClientText(handled.events) + (if handled.raised.Some? && writable then BadGateway else "")
      && DestText(Serve(parsed, connect, relay, transport, writable).events) == DestText(handled.events)
      && Serve(parsed, connect, relay, transport, writable).raised ==
           (if handled.raised.Some? && !writable then Some(WriteFailed) else None)
      && OpensDest(Serve(parsed, connect, relay, transport, writable)) == OpensDest(handled)
  {
    CleanupText(HandlerSpec(parsed, connect, relay, transport, writable), writable);
  }

  /**
   * The `rescue` and `ensure` clauses: after a handler step that raised, write the 502
   * line; in every case close the client. When that write fails, its exception escapes.
   */
  method Recover(client: Connection, raised: Option<Error>) returns (escaped: Option<Error>)
    requires client.closes == 0
    modifies client
    ensures client.closes == 1
    ensures client.written == old(client.written) + (if raised.Some? && client.writable then BadGateway else "")
    ensures escaped == if raised.Some? && !client.writable then Some(WriteFailed) else None
  {
    escaped := None;
    if raised.Some? {
      var ok := client.Write(BadGateway);
      if !ok {
        escaped := Some(WriteFailed);
      }
    }
    client.Close();
  }

  /**
   * The block scheduled for each accepted client: the `begin` part, then on an exception
   * the 502 line, and in every case the client closed. `escaped` is an exception that
   * leaves the block.
   */
  method ServeConnection(client: Connection, parsed: Result<Request, Error>, connect: Connector,
                         relay: Relay, transport: Transport)
    returns (escaped: Option<Error>, dest: Connection?)
    requires client.closes == 0
    modifies client
    ensures client.closes == 1
    ensures client.written == old(client.written) + ClientText(Serve(parsed, connect, relay, transport, client.writable).events)
    ensures escaped == Serve(parsed, connect, relay, transport, client.writable).raised
    ensures dest != null <==> OpensDest(Serve(parsed, connect, relay, transport, client.writable))
    ensures dest != null ==> fresh(dest) && dest.closes == 1
    ensures dest != null ==> dest.written == DestText(Serve(parsed, connect, relay, transport, client.writable).events)
  {
    ServeText(parsed, connect, relay, transport, client.writable);
    ghost var handled := ClientText(HandlerSpec(parsed, connect, relay, transport, client.writable).events);
    ghost var w0 := client.written;
    var raised;
    raised, dest := Dispatch(client, parsed, connect, relay, transport);
    ghost var w1 := client.written;
    assert w1 == w0 + handled;
    escaped := Recover(client, raised);
    ghost var rescue := if raised.Some? && client.writable then BadGateway else "";
    assert client.written == w1 + rescue;
    AppendAssociates(w0, handled, rescue);
  }
}
