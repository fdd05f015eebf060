# forward_proxy in Dafny

This project models the core of `forward_proxy`, a small Ruby forward HTTP proxy, and proves
properties of the model. It covers two parts.

1. **What `Server` does with one accepted connection.** This is the block `start` schedules
   for each client, plus `handle_tunnel`, `handle` and `map_webrick_to_net_http_req`.
   - The request is parsed, then routed by method.
   - `CONNECT` opens a tunnel, following section 4.3.6 of RFC 7231.
   - `GET` and `POST` are forwarded with Net::HTTP.
   - Anything else raises.
   - Every exception is answered with a bare `HTTP/1.1 502` line.
   - The client socket is closed in `ensure`.
2. **`ThreadPool`.** It is a FIFO queue served by worker threads. A worker loops: take the
   front entry, run it. `shutdown` queues one exit entry per thread, then joins the threads.

Modules:

- `Common`: `Option` (Ruby's nil) and `Result` (a value, or a raised exception).
- `RubyText`: the Ruby string operations the proxy's output depends on.
  - `String#split` with a one-character separator, which drops trailing empty fields.
  - `Array#join`.
  - `String#chomp`, which removes one `"\n"`, `"\r"` or `"\r\n"`.
  - `IO#puts`, which adds `"\n"` unless the text already ends in one.
  - As their partner, a reader (`ReadHead`) that splits "\n"-terminated header lines from the
    body the way an HTTP/1.1 client does.
- `ProxyWire`: the pure decisions.
  - Routing.
  - The CONNECT target taken from `Host`.
  - The outbound request: class, path, and first-value headers.
  - The `Via` value.
  - The exact text `handle` writes for an upstream response.
- `ProxyServer`: the per-connection block, specified and implemented.
  - The client socket is a `Connection` object. It has a write log and a count of `close`
    calls. It also has a flag that says whether writes to it go through.
  - `Serve` specifies the block as an ordered list of events: destination opened, text sent,
    tunnel relayed, destination closed, client closed. It also gives the exception that
    leaves the block, if any.
  - The methods `HandleTunnel`, `Handle`, `Dispatch`, `Recover` and `ServeConnection` are
    proved to produce exactly that client text, destination text and exception.
- `ThreadPools`: the pool.
  - `Pool` is the state as a value. It holds the list of entries taken so far, which makes FIFO
    order provable.
  - `Interleave` runs any interleaving of "another thread schedules a job" and "worker `w`
    takes an entry".
  - The `ThreadPool` class holds the fields the Ruby object has: `size`, `queue` and `threads`.
    Its methods are proved against the functions on `Pool`.

Inputs the code gets from outside are parameters. These are the parse outcome, whether
`TCPSocket.new` connects, the bytes each tunnel direction copies, the Net::HTTP answer or
failure, whether the client socket still accepts writes, and whether a scheduled job raises.

In several places the code behaves differently from a typical HTTP proxy. The model follows
the code, and each point below is stated by a lemma or by the shape of a function:

- Every failure is answered with the bare line `HTTP/1.1 502\n`, with no `Via` header. There is
  no 501 and no 504. A HEAD request is refused with 502 like any other method that is not
  CONNECT, GET or POST.
- The forwarded answer ends its lines with `"\n"`, not CRLF. The body is fully buffered and
  never re-framed.
- The upstream `Via` header is not removed from the header lines. It appears there as well as
  inside the proxy's own `Via` line.
- `handle` builds `Net::HTTP::Post.new(path, headers)`, so a POST body is not forwarded.
- An upstream answer with no header fields leaves an empty line where the field lines would
  be. The header section then ends after `Via`, and the body reaches the client with an
  extra leading newline.
- `chomp` and `puts` act on the whole text. So a body that ends in `"\r"` loses that `"\r"`.
  After that, a body that is still not empty and does not end in a newline gains one. An empty
  body and the body `"\r"` add nothing after the header section (`ProxyWire.WireBody`).
- In `handle_tunnel`, a request without `Host` fails in `split`. A failed `TCPSocket.new`
  raises. In both cases, `ensure` then calls `close` on a nil `dest_conn`, which raises
  `NoMethodError`. The client still gets the 502 line.
- When the client socket refuses the 502 write itself, that exception leaves the block and
  ends the worker thread running it.
- A job that raises ends its worker. That worker never takes an exit entry, so after
  `shutdown` an exit entry stays in the queue for good (`ThreadPools.DeadWorkerStrandsExit`).
  `shutdown` re-raises that exception when it joins the dead thread, and stops joining there.
- `schedule` before `start` is accepted: the job waits in the queue. A job scheduled after
  `shutdown` lands behind the exit entries and may never run.

## Model

| member | source | states |
|---|---|---|
| `RubyText.JoinFields` | lib/forward_proxy/server.rb:84 | the colon-separated fields of any `Host` value, joined again with the separator, give the value back |
| `RubyText.Split` | lib/forward_proxy/server.rb:84 | `split(':')` gives a prefix of the fields, none containing a colon, with no empty last part; only empty fields are dropped from the end |
| `RubyText.SplitPair` | lib/forward_proxy/server.rb:84 | `"host:port".split(':')` is exactly `[host, port]` when neither part holds a colon and the port is not empty |
| `RubyText.Chomp` | lib/forward_proxy/server.rb:41-43 | `chomp` gives a prefix of its input without one of `""`, `"\n"`, `"\r"`, `"\r\n"`; the text is unchanged exactly when it does not end in a line break; `"\r\n"` goes as a whole |
| `RubyText.Puts` | lib/forward_proxy/server.rb:41 | what `puts` writes always ends in a newline, and adds one exactly when the text lacks it |
| `RubyText.JoinUnlines` | lib/forward_proxy/server.rb:119 | a non-empty list of header lines, joined with `"\n"` plus a final newline, is the lines each ended by a newline |
| `RubyText.ReadHeadUnlines` | lib/forward_proxy/server.rb:116-122 | a client reading terminated plain lines, a blank line and a body recovers exactly those lines and that body |
| `ProxyWire.RouteOf` | lib/forward_proxy/server.rb:34-39 | CONNECT goes to the tunnel, GET and POST to forwarding, and exactly every other method is refused |
| `ProxyWire.TunnelTarget` | lib/forward_proxy/server.rb:84 | `host, port` from `Host`: nil exactly when the request has no `Host`; neither part holds a colon; a port only comes with a host |
| `ProxyWire.TunnelTargetOfAuthority` | lib/forward_proxy/server.rb:84 | an authority-form `Host: host:port` yields exactly that host and port |
| `ProxyWire.TunnelTargetWithoutPort` | lib/forward_proxy/server.rb:84 | a `Host` without a colon yields that host and a nil port |
| `ProxyWire.Lookup` | lib/forward_proxy/server.rb:118 | `resp['Via']` is present exactly when some upstream field has that name, and is then one of that name's values |
| `ProxyWire.ViaValue` | lib/forward_proxy/server.rb:118 | the `Via` value is `1.1 ForwardProxy` without an upstream `Via`, and `1.1 ForwardProxy, ` followed by the upstream value otherwise |
| `ProxyWire.ViaRoundTrip` | lib/forward_proxy/server.rb:118 | the `Via` value starts with this proxy, and the upstream value can be read back from it unchanged, absence included |
| `ProxyWire.FirstValues` | lib/forward_proxy/server.rb:126 | the outbound header map has exactly the inbound names, each mapped to its first value, or nil for an empty list |
| `ProxyWire.MapRequest` | lib/forward_proxy/server.rb:125-136 | a request maps exactly when it is GET or POST, keeping the method, the path and the first-value headers; otherwise HTTPMethodNotImplemented is raised |
| `ProxyWire.ForwardRouteMaps` | lib/forward_proxy/server.rb:128-133 | the dispatcher forwards exactly the requests the outbound mapping accepts |
| `ProxyWire.FieldLines` | lib/forward_proxy/server.rb:119 | one `name: value` line per upstream field, in order, an upstream `via` included |
| `ProxyWire.WireBody` | lib/forward_proxy/server.rb:121-122 | an empty body adds nothing, and a body not ending in `"\r"` arrives as `puts` would write it |
| `ProxyWire.PutsChompAfterHead` | lib/forward_proxy/server.rb:116-122 | the `chomp` and `puts` around the heredoc change only the body, never the header section |
| `ProxyWire.ForwardHead` | lib/forward_proxy/server.rb:116-120 | the header section of the answer starts with the status line and ends in a blank line |
| `ProxyWire.ForwardHeredoc` | lib/forward_proxy/server.rb:116-122 | the heredoc is the header section followed by more text, and ends in a newline |
| `ProxyWire.ForwardText` | lib/forward_proxy/server.rb:116-122 | what `puts` writes for the chomped heredoc keeps the whole header section and ends in a newline |
| `ProxyWire.ForwardTextLayout` | lib/forward_proxy/server.rb:116-122 | the forwarded text is status line, `Via` line, header lines, blank line, then the body |
| `ProxyWire.HeadLinesPlain` | lib/forward_proxy/server.rb:117-119 | status, `Via` and field lines are each one non-empty line when the upstream values hold no newline |
| `ProxyWire.ForwardHeadLines` | lib/forward_proxy/server.rb:116-120 | the header section is the status, `Via` and field lines each ended by a newline, then a blank line, with an extra empty line when there are no fields |
| `ProxyWire.ClientReadsForward` | lib/forward_proxy/server.rb:116-122 | a client reading the forwarded text gets the status line, `Via`, every upstream header in order, then the body; with no upstream headers the body gains a leading newline |
| `ProxyServer.BadGatewayWritten` | lib/forward_proxy/server.rb:41-43 | the `rescue` clause writes exactly `HTTP/1.1 502` and one newline |
| `ProxyServer.TunnelSpec` | lib/forward_proxy/server.rb:71-104 | the destination opens exactly when `Host` is present and the connection succeeds; nothing is raised exactly when it opened and the client accepts writes; an opened destination is the first event and its close the last |
| `ProxyServer.ForwardSpec` | lib/forward_proxy/server.rb:106-123 | nothing is raised exactly when the request maps, the upstream exchange succeeds and the client accepts writes; a raising step sent nothing; at most one text is sent and no destination opened |
| `ProxyServer.HandlerSpec` | lib/forward_proxy/server.rb:29-39 | a parse failure is raised as it is with nothing sent; only a CONNECT opens a destination; a step that raised sent nothing to a client that accepts writes |
| `ProxyServer.Cleanup` | lib/forward_proxy/server.rb:40-49 | `rescue` and `ensure` keep what the step did and add events after it, the last closing the client; an exception leaves exactly when the step raised and the client refuses writes |
| `ProxyServer.Serve` | lib/forward_proxy/server.rb:28-50 | the whole block ends by closing the client, and the only exception that leaves it is a failed write to a client that refuses writes |
| `ProxyServer.Connection.Write` | lib/forward_proxy/server.rb:92 | a write goes through exactly when the peer accepts writes and the socket is open, and then appends exactly its text |
| `ProxyServer.Connection.Close` | lib/forward_proxy/server.rb:48 | each `close` is counted, and nothing is written |
| `ProxyServer.OpenedTunnelTallies` | lib/forward_proxy/server.rb:92-101 | an opened tunnel sends the client the 200 line and then what the destination sent, sends the destination what the client sent, and does not close the client |
| `ProxyServer.RefusedTunnelTallies` | lib/forward_proxy/server.rb:92-103 | when the 200 line cannot be written, nothing reaches either side |
| `ProxyServer.TunnelOpenedSpec` | lib/forward_proxy/server.rb:84-104 | once the destination opened: a writable client gets the 200 line and the relayed bytes with no exception; otherwise nothing is sent and the write failure is raised |
| `ProxyServer.HandlerLeavesClientOpen` | lib/forward_proxy/server.rb:29-39 | the handlers never close the client themselves |
| `ProxyServer.ServeClosesClientOnce` | lib/forward_proxy/server.rb:47-49 | on every path the client is closed exactly once, as the very last event |
| `ProxyServer.FailedHandlerSentNothing` | lib/forward_proxy/server.rb:29-39 | a handler that raised had written nothing to a writable client |
| `ProxyServer.ServeFailureAnswer` | lib/forward_proxy/server.rb:40-46 | whatever failed, a writable client receives exactly `HTTP/1.1 502\n` and nothing else, and no exception escapes |
| `ProxyServer.HeadGetsBadGateway` | lib/forward_proxy/server.rb:34-43 | a HEAD request gets exactly the 502 line |
| `ProxyServer.HandlerRaisesWhen` | lib/forward_proxy/server.rb:29-39 | for a client that accepts writes, the handler raises exactly on a parse failure, an unsupported method, a missing `Host` or failed connect for CONNECT, or a failed upstream exchange |
| `ProxyServer.ServeEscapesOnlyFromDeadClient` | lib/forward_proxy/server.rb:40-49 | an exception leaves the block exactly when the client refuses writes, and that client then received nothing |
| `ProxyServer.ServeForwardAnswer` | lib/forward_proxy/server.rb:106-122 | a GET or POST answered upstream reaches a writable client as exactly the forwarded text of that answer |
| `ProxyServer.ServeTunnelAnswer` | lib/forward_proxy/server.rb:71-104 | a CONNECT whose destination opens gives the client the 200 line then the destination's bytes, and the destination the client's bytes |
| `ProxyServer.ForwardTextNotTunnelLine` | lib/forward_proxy/server.rb:116-122 | a forwarded answer never equals the tunnel's 200 line |
| `ProxyServer.OpenedTunnelOrdered` | lib/forward_proxy/server.rb:85-103 | an opened tunnel closes its destination before the client, whether or not the 200 line was written |
| `ProxyServer.ServeTunnelOrder` | lib/forward_proxy/server.rb:28-50 | on every path, 200 is sent only after the destination opened, an opened destination is closed before the client, and 200 and 502 are never both sent |
| `ProxyServer.CleanupText` | lib/forward_proxy/server.rb:40-49 | `rescue` and `ensure` add the 502 line exactly when the step raised and the client accepts writes, add nothing for the destination, and open none |
| `ProxyServer.ServeText` | lib/forward_proxy/server.rb:28-50 | the whole block sends what its `begin` part sent plus, after a failure, the 502 line; only a write failure escapes |
| `ProxyServer.HandleTunnel` | lib/forward_proxy/server.rb:71-104 | the client receives exactly the text of the tunnel specification and stays open; the exception is the specified one; a destination exists exactly when it opened, and is then fresh, closed once, and received the specified text |
| `ProxyServer.RunTunnel` | lib/forward_proxy/server.rb:92-103 | the client gets the 200 line and then the destination's bytes, or nothing and a write failure; the destination is closed once |
| `ProxyServer.Handle` | lib/forward_proxy/server.rb:106-123 | the client receives exactly the forwarding specification's text, and the raised exception is the specified one |
| `ProxyServer.Dispatch` | lib/forward_proxy/server.rb:29-39 | the `begin` part writes exactly the handler specification's text and raises exactly its exception; it returns a destination exactly when the specification opened one, fresh, closed once and sent the specified text |
| `ProxyServer.Recover` | lib/forward_proxy/server.rb:40-49 | after a failure the 502 line is written if the client accepts it, the client is closed exactly once, and only a failed 502 write escapes |
| `ProxyServer.ServeConnection` | lib/forward_proxy/server.rb:28-50 | the client receives exactly the text `Serve` specifies and is closed exactly once; the escaping exception is the specified one; a destination is returned exactly when `Serve` opened one, and it is closed once and received the specified text |
| `ThreadPools.New` | lib/forward_proxy/thread_pool.rb:4-8 | a new pool keeps its size and has an empty queue and no threads |
| `ThreadPools.Times` | lib/forward_proxy/thread_pool.rb:11 | `size.times` runs `size` times, and not at all for a size below one |
| `ThreadPools.Started` | lib/forward_proxy/thread_pool.rb:10-21 | `start` adds exactly `size` running workers after the existing ones, and leaves the queue alone |
| `ThreadPools.Pop` | lib/forward_proxy/thread_pool.rb:13-17 | a worker can take an entry exactly when it is running and the queue is not empty; it takes the front entry, and only that worker changes; it stops exactly on an exit entry or a job that raises |
| `ThreadPools.Scheduled` | lib/forward_proxy/thread_pool.rb:23-25 | `schedule` puts one job after everything queued so far, and touches neither the workers nor what was taken |
| `ThreadPools.PostExits` | lib/forward_proxy/thread_pool.rb:27-30 | the first loop of `shutdown` puts one exit entry per thread after everything queued so far |
| `ThreadPools.Interleave` | lib/forward_proxy/thread_pool.rb:12-25 | any interleaving of `schedule` calls and worker turns keeps the thread count and the size, and only adds to what was taken |
| `ThreadPools.NewValid` | lib/forward_proxy/thread_pool.rb:4-8 | a new pool has queued nothing and no exited worker |
| `ThreadPools.StartKeepsValid` | lib/forward_proxy/thread_pool.rb:10-21 | `start` keeps the queue and the exit tally, and adds `size` running workers |
| `ThreadPools.ScheduleAppends` | lib/forward_proxy/thread_pool.rb:23-25 | `schedule` appends one job after everything queued, earlier entries unchanged and in order, and keeps the invariants |
| `ThreadPools.PostExitsAppends` | lib/forward_proxy/thread_pool.rb:27-30 | `shutdown` appends exactly one exit entry per thread after everything queued, nothing for a never-started pool, and then the exits can stop every running worker |
| `ThreadPools.PopCounts` | lib/forward_proxy/thread_pool.rb:13-17 | taking an exit moves one worker to exited and one exit from the queue to the taken list; taking a job moves no exit |
| `ThreadPools.PopKeepsValid` | lib/forward_proxy/thread_pool.rb:13-17 | taking an entry loses and reorders nothing, and each exit taken stops exactly one worker |
| `ThreadPools.RunningWorkerCanTake` | lib/forward_proxy/thread_pool.rb:15 | once the exits are queued, a running worker never blocks on an empty queue |
| `ThreadPools.InterleaveKeeps` | lib/forward_proxy/thread_pool.rb:12-25 | over any interleaving of schedules and worker steps, the threads stay, nothing queued is lost or reordered, only jobs are added, and each exit taken stops exactly one worker |
| `ThreadPools.ShutdownDrainsQueue` | lib/forward_proxy/thread_pool.rb:27-32 | after `shutdown`, under any interleaving, no exit is taken before every job queued before `shutdown`, and once any worker has exited all of those jobs have been taken |
| `ThreadPools.DeadWorkerStrandsExit` | lib/forward_proxy/thread_pool.rb:13-17 | after `shutdown`, in any interleaving in which a worker's job raised, an exit entry is still waiting in the queue |
| `ThreadPools.ShutdownNeverStarves` | lib/forward_proxy/thread_pool.rb:27-32 | after `shutdown`, under any interleaving, every running worker can still take an entry |
| `ThreadPools.ThreadPool.constructor` | lib/forward_proxy/thread_pool.rb:4-8 | the object starts as `New(size)` |
| `ThreadPools.ThreadPool.Start` | lib/forward_proxy/thread_pool.rb:10-21 | the `size.times` loop leaves the object as `Started` gives it |
| `ThreadPools.ThreadPool.Schedule` | lib/forward_proxy/thread_pool.rb:23-25 | the queue gains exactly the job at its back |
| `ThreadPools.ThreadPool.Step` | lib/forward_proxy/thread_pool.rb:13-17 | one turn of a worker's loop acts exactly as `Pop`, and changes nothing when the worker cannot take an entry |
| `ThreadPools.ThreadPool.ScheduleExits` | lib/forward_proxy/thread_pool.rb:28-30 | the first loop of `shutdown` appends one exit entry per thread |
| `ThreadPools.ThreadPool.JoinWorker` | lib/forward_proxy/thread_pool.rb:32 | joining a worker runs it until it stops, touching no other worker and keeping the invariants and the queued order |
| `ThreadPools.ThreadPool.JoinAll` | lib/forward_proxy/thread_pool.rb:32 | joining keeps the thread count, the invariants and the queued order; it returns normally only when every thread exited, raises only when some thread died, and does nothing for a never-started pool |
| `ThreadPools.ThreadPool.Shutdown` | lib/forward_proxy/thread_pool.rb:27-33 | exactly one exit per thread is queued behind everything else; a never-started pool is left as it was; a normal return means every thread exited and, when no exit was queued before, every job scheduled before the call was taken; a raise means some thread died |

## Left out

- Sockets, the `TCPServer` accept loop and `Server#start`/`Server#shutdown` are network
  plumbing. Whether `TCPSocket.new` connects is an input (`Connector`).
- The two `transfer` threads and `IO.copy_stream` copy bytes concurrently. The tunnel body
  is one step (`Relayed`) carrying the bytes each direction copied, which are an input.
- WEBrick parsing and the Net::HTTP exchange are foreign libraries. They are a parsed
  request or `ParseFailed`, and an upstream response or `UpstreamFailed`.
- Logging (`log`, `Time.now`, and the error message and backtrace printed in `rescue`) is
  output to stdout only.
- Real threads, `Thread#join` and `catch`/`throw` become steps of one worker at a time.
  `ThreadPools.ThreadPool.JoinWorker`: while one thread is joined, only that worker takes
  entries. Other workers' steps during a join are covered by `InterleaveKeeps`,
  `ShutdownDrainsQueue` and `ShutdownNeverStarves`, not by the method.
- `ThreadPools.Pop`: a job that raises `StopIteration` ends Ruby's `loop` normally. That worker
  then stops without taking an exit entry, and `join` does not re-raise. The model counts every
  raising job as `Died`. This outcome is not modelled because the only exception the server's
  jobs let escape is the failed write of the 502 line, never `StopIteration`.
- `ProxyServer.Connection.Write`: a write either goes through whole or raises. Partial writes
  and a peer that disappears halfway through a connection are not modelled.
- `lib/forward_proxy/errors/connection_timeout_error.rb` is never raised. No timeouts exist in
  the code, and none are modelled.
- The test files need live network access and certificates, and are not part of this model.
