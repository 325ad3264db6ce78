# HTTP response building, serialisation and the shutdown-monitor protocol

A Dafny model of two sequential parts of `socket-server-threadpool`, a small Java
socket server with a fixed thread pool:

- **Responses** (`http_response.dfy`): the immutable `HttpResponse` value. It holds a
  status line, a case-sensitive header map and a body that may be null, plus its
  `getContentLength()`. Because the response is a value, the defensive copies of the
  header map in the constructor and in `getHeaders()` come for free. No later update
  of a builder's map, and no change to a map a caller got back, can reach a built
  response.
- **Builder** (`http_response_builder.dfy`): `HttpResponseBuilder` as a class whose
  fields the chained setters overwrite. `build()` stamps `Content-Length` into the
  builder's own map and then hands out a response. The `ok`, `notFound` and
  `internalServerError` factories are the builder chains of the source.
- **Writer** (`http_response_writer.dfy`): `writeResponse` writes the HTTP/1.1 message
  shape of section 2.1 of RFC 9112 onto a line sink that stands for a `PrintWriter`:
  - the status line;
  - one `name: value` line per header, in the map's iteration order;
  - an empty line;
  - the body line, when there is a body.

  The null checks raise `IllegalArgumentException` before anything is written. Any
  failure while writing becomes `IOException("Failed to write HTTP response")`. The
  three convenience methods write the three factory responses.
- **Monitor** (`shutdown_monitor.dfy`): `ShutdownMonitor`, the administrative port.
  - One line is read per connection and matched, ignoring case, against `shutdown` and
    then `status`. Anything else, including a null line, gets the list of commands.
  - Every handled line gets exactly one reply.
  - `stop()` switches `running` off once, by a compare-and-set. Only that call closes
    the listening socket.
  - The `run()` loop serves connections while `running` holds. An I/O error on one
    connection does not end the loop.
  - The thread-pooled server is reduced to its `stopped` flag.
- **Text** (`text.dfy`) and **Wrappers** (`wrappers.dfy`) hold the support definitions:
  - `String.valueOf(int)` as decimal digits, and its parse;
  - the UTF-8 byte length of a string;
  - ASCII case folding;
  - `Option`, which stands for a nullable `String`.

Environment choices:

- **Sink failure.** The sink's `capacity` is a parameter of the environment: the number
  of lines the stream takes before a `println` fails.
- **Header order.** `HashMap` iteration order is not fixed, so the writer returns the
  order it used, and every statement about header lines holds for whichever
  enumeration of the keys comes out.
- **Line separator.** The separator written by `println` is a parameter `eol` of
  `Render`.
- **Sockets.** The monitor's socket work is replaced by a script of connections. The
  result of binding the listening socket is a parameter of `Run`.
- **Ordering.** A ghost `trace` records the order of the observable effects: the reply,
  the closing of the socket, and the stopping of the server.

The writer in `src/main/java/dev/mars/HttpResponseWriter.java` is declared in
package `dev.mars`, yet it is imported as `dev.mars.http.HttpResponseWriter`. It is
modelled against the `dev.mars.http` response types.

## Model

| member | source | states |
|---|---|---|
| Text.Decimal | src/main/java/dev/mars/http/HttpResponseBuilder.java:38 | an `int` renders as digits with no leading zero, preceded by `-` exactly when it is negative |
| Text.DecimalRoundTrip | src/main/java/dev/mars/http/HttpResponseBuilder.java:81 | parsing the decimal rendering of any integer gives that integer back |
| Text.Utf8Length | src/main/java/dev/mars/http/HttpResponse.java:38 | the byte length of a string lies between its length and four times its length |
| Text.Utf8LengthConcat | src/main/java/dev/mars/http/HttpResponse.java:38 | the byte length of a concatenation is the sum of the byte lengths |
| Text.Utf8LengthAscii | src/main/java/dev/mars/http/HttpResponse.java:38 | the byte length equals the character count exactly when the string is ASCII |
| Text.EqualsIgnoreCaseByLower | src/main/java/dev/mars/server/ShutdownMonitor.java:37 | two strings are equal ignoring case exactly when their lower-cased forms are equal |
| Responses.HttpResponse.ContentLength | src/main/java/dev/mars/http/HttpResponse.java:37-39 | 0 for a null body; otherwise the body's byte length, bounded by 1 and 4 bytes per character and equal to the character count for ASCII |
| Builder.HttpResponseBuilder.constructor | src/main/java/dev/mars/http/HttpResponseBuilder.java:12-19 | a fresh builder has status `HTTP/1.1 200 OK`, body `""` and exactly the header `Content-Type: text/plain; charset=UTF-8` |
| Builder.HttpResponseBuilder.SetStatusLine | src/main/java/dev/mars/http/HttpResponseBuilder.java:26-29 | the status line is set verbatim; headers and body are unchanged |
| Builder.HttpResponseBuilder.SetStatus | src/main/java/dev/mars/http/HttpResponseBuilder.java:37-40 | the status line becomes `"HTTP/1.1 " + decimal(code) + " " + reason`; headers and body are unchanged |
| Builder.StatusLineParts | src/main/java/dev/mars/http/HttpResponseBuilder.java:38 | for a three-digit code the status line splits back into `HTTP/1.1 `, the code (which parses back), a space and the reason |
| Builder.HttpResponseBuilder.PutHeader | src/main/java/dev/mars/http/HttpResponseBuilder.java:48-51 | exactly the given key (case-sensitive) maps to the new value; every other entry, the status line and the body are unchanged |
| Builder.HttpResponseBuilder.SetContentType | src/main/java/dev/mars/http/HttpResponseBuilder.java:58-61 | the same map update as `header("Content-Type", t)`; nothing else changes |
| Builder.HttpResponseBuilder.SetBody | src/main/java/dev/mars/http/HttpResponseBuilder.java:68-71 | only the body is replaced |
| Builder.HttpResponseBuilder.Build | src/main/java/dev/mars/http/HttpResponseBuilder.java:78-85 | the builder's own map gets `Content-Length` stamped when the body is non-null; the response carries the current status line, headers and body |
| Builder.BuildStampsContentLength | src/main/java/dev/mars/http/HttpResponseBuilder.java:80-84 | with a non-null body, `Content-Length` parses to the response's content length, overriding any earlier value, and no other entry changes; with a null body the headers are untouched |
| Builder.BuildTwiceSame | src/main/java/dev/mars/http/HttpResponseBuilder.java:78-85 | stamping twice is the same as stamping once, so a second `build()` with no change in between yields an equal response |
| Builder.Ok | src/main/java/dev/mars/http/HttpResponseBuilder.java:92-98 | status `HTTP/1.1 200 OK`, body `content`, `Content-Type: text/plain; charset=UTF-8`, and exactly one more header, a `Content-Length` matching the body, when the body is non-null |
| Builder.NotFound | src/main/java/dev/mars/http/HttpResponseBuilder.java:104-109 | `HTTP/1.1 404 Not Found`, body `404 - Not Found`, `Content-Length: 15`, content length 15 |
| Builder.InternalServerError | src/main/java/dev/mars/http/HttpResponseBuilder.java:115-120 | `HTTP/1.1 500 Internal Server Error`, body `500 - Internal Server Error`, `Content-Length: 27`, content length 27 |
| Writer.EntryOrder | src/main/java/dev/mars/HttpResponseWriter.java:34-35 | the entry iteration lists every header key exactly once |
| Writer.EnumerationSize | src/main/java/dev/mars/HttpResponseWriter.java:35 | an iteration of the keys has exactly as many entries as the map |
| Writer.HeaderLinesAt | src/main/java/dev/mars/HttpResponseWriter.java:36 | header line `i` is `name + ": " + value` for the `i`-th key |
| Writer.WriteHeaderLines | src/main/java/dev/mars/HttpResponseWriter.java:35-37 | the sink gains the header lines in iteration order until a `println` fails; on failure the sink is full |
| Writer.Emit | src/main/java/dev/mars/HttpResponseWriter.java:40-44 | one `println` adds the next line of the message, or fails with the sink full and nothing added |
| Writer.MessageHead | src/main/java/dev/mars/HttpResponseWriter.java:31-37 | the message starts with the status line, followed by the header lines |
| Writer.MessageAt | src/main/java/dev/mars/HttpResponseWriter.java:36 | message line `1 + i` is the `i`-th header's `name: value` line |
| Writer.MessageTail | src/main/java/dev/mars/HttpResponseWriter.java:40-45 | the empty line follows the headers, and the body line follows it exactly when the body is non-null |
| Writer.MessageLineCount | src/main/java/dev/mars/HttpResponseWriter.java:31-45 | the message has one line for the status, one per header, one empty line and one more when the body is non-null: status first, empty line after the headers, body last |
| Writer.EachHeaderOnce | src/main/java/dev/mars/HttpResponseWriter.java:34-37 | every header entry is written as `name: value` at exactly one position of the header block |
| Writer.FailedWrite | src/main/java/dev/mars/HttpResponseWriter.java:50-52 | a failing `println` leaves the earlier lines written and ends in the IOException |
| Writer.CompletedWrite | src/main/java/dev/mars/HttpResponseWriter.java:31-48 | when every line is accepted and flushed, the write completes normally |
| Writer.WriteResponse | src/main/java/dev/mars/HttpResponseWriter.java:21-53 | a null response or writer gives IllegalArgumentException with its message and writes nothing; otherwise the sink gains the message (or its prefix up to a failing line), flushed on success, and a failure gives `IOException("Failed to write HTTP response")` |
| Writer.WrittenLines | src/main/java/dev/mars/HttpResponseWriter.java:31-48 | a completed write adds exactly the message (two lines plus one per header, plus one for a non-null body) and leaves everything flushed |
| Writer.FailedLines | src/main/java/dev/mars/HttpResponseWriter.java:29-52 | a write that does not complete ends in `IOException("Failed to write HTTP response")`, keeps a strict prefix of the message, and flushes nothing, meaning the final `flush()` of `writeResponse` is skipped |
| Writer.RenderAppend | src/main/java/dev/mars/HttpResponseWriter.java:31-45 | the text of consecutive `println` calls is the concatenation of their texts |
| Writer.TrailingTerminatorNotCounted | src/main/java/dev/mars/HttpResponseWriter.java:44 | the text ends with the body plus one more line separator, so the bytes after the empty line exceed `Content-Length` by the separator's byte length |
| Writer.WriteOkResponse | src/main/java/dev/mars/HttpResponseWriter.java:62-65 | the same effect as `writeResponse(ok(content), writer)` |
| Writer.WriteNotFoundResponse | src/main/java/dev/mars/HttpResponseWriter.java:73-76 | the same effect as `writeResponse(notFound(), writer)` |
| Writer.WriteInternalServerErrorResponse | src/main/java/dev/mars/HttpResponseWriter.java:84-87 | the same effect as `writeResponse(internalServerError(), writer)` |
| Monitor.Parse | src/main/java/dev/mars/server/ShutdownMonitor.java:34-48 | a line is `shutdown` exactly when it lower-cases to `shutdown`, `status` exactly when it lower-cases to `status`; a null line is an unknown command |
| Monitor.ParseCaseInsensitive | src/main/java/dev/mars/server/ShutdownMonitor.java:37-42 | lines equal ignoring case are dispatched the same way |
| Monitor.ReplyIdentifiesCommand | src/main/java/dev/mars/server/ShutdownMonitor.java:38-47 | the reply line determines the command handled and, for `status`, whether the server was stopped |
| Monitor.StopState | src/main/java/dev/mars/server/ShutdownMonitor.java:62-73 | afterwards `running` is false; the socket is closed only when `running` was true and the socket was open; a call with `running` already false changes nothing |
| Monitor.StopIdempotent | src/main/java/dev/mars/server/ShutdownMonitor.java:62-73 | a second `stop()` changes nothing |
| Monitor.Step | src/main/java/dev/mars/server/ShutdownMonitor.java:37-48 | the reply belongs to the parsed command; `shutdown` leaves the monitor not running, its socket closed as `stop()` does, and the server stopped; any other line changes no flag; the effects start with the reply, end with the server stopping exactly on `shutdown`, and include the socket closing exactly when that `stop()` flipped `running` on an open socket |
| Monitor.StepNeverRestarts | src/main/java/dev/mars/server/ShutdownMonitor.java:63 | a handled line never turns `running` back on or un-stops the server |
| Monitor.Serve | src/main/java/dev/mars/server/ShutdownMonitor.java:30-53 | one turn of the loop serves one connection: a delivered line gets the reply and new state of `Step`; an I/O error changes nothing and gets no reply |
| Monitor.Session | src/main/java/dev/mars/server/ShutdownMonitor.java:29-54 | the loop serves at most the connections that arrive |
| Monitor.SessionOneReplyEach | src/main/java/dev/mars/server/ShutdownMonitor.java:37-48 | the replies number exactly the served connections that delivered a line |
| Monitor.SessionStopsAtShutdown | src/main/java/dev/mars/server/ShutdownMonitor.java:29-54 | no connection before the last served one was a shutdown; the loop ends early only right after a shutdown; `running` ends false exactly when a shutdown was served |
| Monitor.SessionStaysStopped | src/main/java/dev/mars/server/ShutdownMonitor.java:29 | once `running` is false the loop serves nothing and nothing changes |
| Monitor.PooledServer.constructor | src/main/java/dev/mars/server/ThreadPooledServer.java:15 | a new server is not stopped |
| Monitor.PooledServer.IsStopped | src/main/java/dev/mars/server/ThreadPooledServer.java:49-51 | reads the `stopped` flag, which `Handle` consults to answer `ALIVE` or `STOPPED` |
| Monitor.PooledServer.Stop | src/main/java/dev/mars/server/ThreadPooledServer.java:53-54 | afterwards the server is stopped |
| Monitor.ShutdownMonitor.constructor | src/main/java/dev/mars/server/ShutdownMonitor.java:9-21 | keeps the port and server; `running` starts true and no socket is bound yet |
| Monitor.ShutdownMonitor.Stop | src/main/java/dev/mars/server/ShutdownMonitor.java:62-73 | the new flags are those of `StopState`, and a socket-closed effect is recorded only by the call that flips `running` on an open socket |
| Monitor.ShutdownMonitor.Handle | src/main/java/dev/mars/server/ShutdownMonitor.java:37-48 | reply, new state and recorded effects as `Step`: for `shutdown` the reply, then the monitor's `stop()`, then `server.stop()`; otherwise only the reply |
| Monitor.ShutdownMonitor.ServeConnection | src/main/java/dev/mars/server/ShutdownMonitor.java:30-53 | the reply lines, new state and recorded effects of one connection are those of `Serve` |
| Monitor.ShutdownMonitor.Run | src/main/java/dev/mars/server/ShutdownMonitor.java:24-60 | when binding fails nothing changes, the effect record included; otherwise the replies, the served count, the final flags and the effects recorded in order are those of `Session`, and leaving the block closes the socket |

## Left out

- Null status lines, header names and header values. Only the body may be null in the model. A null status line would print as `null`, and a null map would throw in the `HttpResponse` constructor.
- Java `int` range: `Decimal` and `Utf8Length` are unbounded. Status codes and body lengths beyond 2^31 - 1 do not occur in the modelled calls.
- The platform default charset of `getBytes()`: UTF-8 byte lengths are used.
- The platform line separator of `println`: it is the parameter `eol` of `Render`.
- `HashMap` iteration order: any enumeration of the keys may come out, and nothing depends on which.
- Writer.WriteResponse: a failing `println` stands for any exception raised inside the `try` block, such as one from a `PrintWriter` subclass. It is modelled as the sink being full. `flush()` never fails. The standard `PrintWriter` records I/O errors for `checkError()` instead of throwing, and the source never consults that flag; this is not modelled.
- Writer.LineSink: `println` does not flush, as on a `PrintWriter` without autoflush. The worker creates its writers with autoflush (src/main/java/dev/mars/worker/WorkerRunnable.java:40 and :65), where every `println` also flushes; that per-line flushing is not modelled.
- Java strings are UTF-16 code units, while a Dafny `string` is a sequence of Unicode scalar values. A lone surrogate cannot be expressed; `getBytes()` would encode it as one `?` byte. The per-character bounds of `ContentLength` count code points, not Java `char`s.
- Unicode case folding of `equalsIgnoreCase`: only ASCII letters are folded. Characters such as `ſ` or the Kelvin sign, which Java matches against `s` and `k`, are not.
- Sockets, threads, `synchronized` and `AtomicBoolean` memory semantics: the model is sequential.
- `accept()` blocking: the monitor loop also ends when the scripted connections run out.
- A `stop()` from another thread that closes the socket during `accept()` is not modelled.
- Console and `printStackTrace` logging.
- `ThreadPooledServer` beyond its `stopped` flag: its accept loop, the pool, and closing its own socket. `stop()` on a server that never opened its socket throws a `NullPointerException` after setting the flag. That exception ends the monitor's `run()` after the reply was sent and both flags were set. Only the way `run()` ends differs, and that is not modelled.
- The setters returning `this` for chaining: the factories call the setters in sequence on one builder.
- `WorkerRunnable`, `StartStop`, and the older `dev.mars` copies of the server, worker and monitor are not part of this model.
