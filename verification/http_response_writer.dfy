/**
 * Serialising a response onto a line-oriented sink. The sink stands for the
 * `PrintWriter` the caller passes in: every `println` appends one line, and
 * the line separator is left abstract (it is the platform's, not CRLF).
 */
module Writer {
  import opened Wrappers
  import opened Text
  import opened Responses
  import opened Builder

  const NullResponseMessage := "HttpResponse cannot be null"
  const NullWriterMessage := "PrintWriter cannot be null"
  const WriteFailedMessage := "Failed to write HTTP response"

  /** How `writeResponse` ends: normally, or by the exception it throws. */
  datatype WriteOutcome =
    | Written
    | IllegalArgument(message: string)  // IllegalArgumentException, raised before writing
    | IOFailure(message: string)        // IOException wrapping a failure while writing

  datatype SinkState = SinkState(lines: seq<string>, flushed: nat)

  /** Whether a sink holding `written` lines accepts `count` more. */
  predicate Fits(written: nat, capacity: Option<nat>, count: nat) {
    capacity.None? || written + count <= capacity.value
  }

  /**
   * The lines a sink holds after `msg` was written to it line by line: all of
   * them when they fit, otherwise those that fit before the failing line.
   */
  function Accepted(before: seq<string>, capacity: Option<nat>, msg: seq<string>): seq<string>
    requires capacity.Some? ==> |before| <= capacity.value
  {
    if Fits(|before|, capacity, |msg|) then before + msg
    else before + msg[..capacity.value - |before|]
  }

  /**
   * The output sink. `capacity` is the environment's: the number of lines the
   * underlying stream takes before a write fails (`None`: it never fails).
   * `Println` does not flush: the sink stands for a `PrintWriter` without
   * autoflush, so `flushed` counts only what `writeResponse`'s own final
   * `flush()` pushed out. The worker's writers are created with autoflush,
   * where every `println` flushes; that is not part of this model.
   */
  class LineSink {
    var lines: seq<string>
    var flushed: nat  // how many of `lines` have been flushed
    const capacity: Option<nat>

    ghost predicate Valid()
      reads this
    {
      flushed <= |lines| && (capacity.Some? ==> |lines| <= capacity.value)
    }

    function State(): SinkState
      reads this
    {
      SinkState(lines, flushed)
    }

    constructor (capacity: Option<nat>)
      ensures Valid() && lines == [] && flushed == 0 && this.capacity == capacity
    {
      lines := [];
      flushed := 0;
      this.capacity := capacity;
    }

    /** `println(line)`; `ok` is false when the write fails. */
    method Println(line: string) returns (ok: bool)
      requires Valid()
      modifies this
      ensures Valid()
      ensures ok == Fits(|old(lines)|, capacity, 1)
      ensures lines == if ok then old(lines) + [line] else old(lines)
      ensures flushed == old(flushed)
    {
      ok := capacity.None? || |lines| + 1 <= capacity.value;
      if ok {
        lines := lines + [line];
      }
    }

    /** `flush()`. */
    method Flush()
      requires Valid()
      modifies this
      ensures Valid() && lines == old(lines) && flushed == |lines|
    {
      flushed := |lines|;
    }
  }

  /** `order` lists every key of the set exactly once (a HashMap iteration order). */
  ghost predicate IsEnumeration(keys: set<string>, order: seq<string>) {
    && (forall i, j :: 0 <= i < j < |order| ==> order[i] != order[j])
    && (forall name :: name in order <==> name in keys)
  }

  /** An enumeration is exactly as long as the set it enumerates. */
  lemma {:induction false} EnumerationSize(keys: set<string>, order: seq<string>)
    requires IsEnumeration(keys, order)
    ensures |order| == |keys|
    decreases |order|
  {
    if order != [] {
      var rest := order[1..];
      assert IsEnumeration(keys - {order[0]}, rest) by {
        forall name
          ensures name in rest <==> name in keys - {order[0]}
        {
          if name in rest {
            var k :| 0 <= k < |rest| && rest[k] == name;
            assert order[k + 1] == name;
          }
          if name in keys - {order[0]} {
            var k :| 0 <= k < |order| && order[k] == name;
            assert rest[k - 1] == name;
          }
        }
      }
      EnumerationSize(keys - {order[0]}, rest);
    } else {
      assert forall name :: name !in keys;
      assert keys == {};
    }
  }

  function HeaderLine(name: string, value: string): string {
    name + ": " + value
  }

  /** One `name: value` line per key of `order`, in that order. */
  function HeaderLines(headers: map<string, string>, order: seq<string>): (lines: seq<string>)
    requires forall name :: name in order ==> name in headers
    ensures |lines| == |order|
  {
    if order == [] then []
    else [HeaderLine(order[0], headers[order[0]])] + HeaderLines(headers, order[1..])
  }

  /** Line `i` of the header block is the entry of the `i`-th key. */
  lemma {:induction false} HeaderLinesAt(headers: map<string, string>, order: seq<string>, i: nat)
    requires forall name :: name in order ==> name in headers
    requires i < |order|
    ensures HeaderLines(headers, order)[i] == HeaderLine(order[i], headers[order[i]])
    decreases i
  {
    if i > 0 {
      HeaderLinesAt(headers, order[1..], i - 1);
    }
  }

  function BodyLines(body: Option<string>): seq<string> {
    if body.Some? then [body.value] else []
  }

  /** The lines `writeResponse` emits for `r` when its headers come in `order`. */
  ghost function Message(r: HttpResponse, order: seq<string>): seq<string>
    requires IsEnumeration(r.headers.Keys, order)
  {
    [r.statusLine] + HeaderLines(r.headers, order) + [""] + BodyLines(r.body)
  }

  /**
   * The whole effect of `writeResponse(response, writer)` on a non-null writer:
   * a null response is refused before anything is written; otherwise the
   * message is written line by line and flushed, or, if a line fails, the
   * lines before it stay written and an IOException is raised.
   */
  ghost predicate Writes(response: Option<HttpResponse>, before: SinkState, capacity: Option<nat>,
                         after: SinkState, outcome: WriteOutcome, order: seq<string>)
    requires capacity.Some? ==> |before.lines| <= capacity.value
  {
    match response
    case None => outcome == IllegalArgument(NullResponseMessage) && after == before
    case Some(r) =>
      && IsEnumeration(r.headers.Keys, order)
      && after.lines == Accepted(before.lines, capacity, Message(r, order))
      && if Fits(|before.lines|, capacity, |Message(r, order)|)
         then outcome == Written && after.flushed == |after.lines|
         else outcome == IOFailure(WriteFailedMessage) && after.flushed == before.flushed
  }

  /**
   * When the write of line `k` of the message fails, the sink keeps exactly
   * the lines before it, and the write ends in an IOException.
   */
  lemma FailedWrite(r: HttpResponse, order: seq<string>, before: SinkState, capacity: Option<nat>,
                    k: nat, after: SinkState)
    requires IsEnumeration(r.headers.Keys, order)
    requires k < |Message(r, order)|
    requires after.lines == before.lines + Message(r, order)[..k] && after.flushed == before.flushed
    requires capacity.Some? && |after.lines| == capacity.value
    ensures Writes(Some(r), before, capacity, after, IOFailure(WriteFailedMessage), order)
  {
  }

  /** When every line of the message was accepted, it is all written and flushed. */
  lemma CompletedWrite(r: HttpResponse, order: seq<string>, before: SinkState, capacity: Option<nat>,
                       k: nat, after: SinkState)
    requires IsEnumeration(r.headers.Keys, order)
    requires k == |Message(r, order)|
    requires after.lines == before.lines + Message(r, order)[..k] && after.flushed == |after.lines|
    requires capacity.Some? ==> |after.lines| <= capacity.value
    ensures Writes(Some(r), before, capacity, after, Written, order)
  {
    assert Message(r, order)[..k] == Message(r, order);
  }

  /** Where the blank line and the body sit in the message. */
  lemma MessageTail(r: HttpResponse, order: seq<string>)
    requires IsEnumeration(r.headers.Keys, order)
    ensures var msg := Message(r, order);
      && |msg| == 2 + |order| + |BodyLines(r.body)|
      && msg[1 + |order|] == ""
      && (r.body.Some? ==> msg[2 + |order|] == r.body.value)
  {
  }

  /** Line `1 + i` of the message is the `i`-th header line. */
  lemma MessageAt(r: HttpResponse, order: seq<string>, i: nat)
    requires IsEnumeration(r.headers.Keys, order) && i < |order|
    ensures Message(r, order)[1 + i] == HeaderLine(order[i], r.headers[order[i]])
  {
    HeaderLinesAt(r.headers, order, i);
  }

  /** The message begins with the status line and the first header lines. */
  lemma MessageHead(r: HttpResponse, order: seq<string>, count: nat)
    requires IsEnumeration(r.headers.Keys, order) && count <= |order|
    ensures Message(r, order)[..1 + count] == [r.statusLine] + HeaderLines(r.headers, order)[..count]
  {
  }

  lemma PrefixExtend(s: seq<string>, k: nat)
    requires k < |s|
    ensures s[..k] + [s[k]] == s[..k + 1]
  {
  }

  /**
   * The shape of the message: the status line first, one line per header
   * entry, a blank line, then the body line when there is a body.
   */
  lemma MessageLineCount(r: HttpResponse, order: seq<string>)
    requires IsEnumeration(r.headers.Keys, order)
    ensures |Message(r, order)| == 2 + |r.headers| + (if r.body.Some? then 1 else 0)
    ensures Message(r, order)[0] == r.statusLine
    ensures Message(r, order)[1 + |r.headers|] == ""
    ensures r.body.Some? ==> Message(r, order)[2 + |r.headers|] == r.body.value
  {
    EnumerationSize(r.headers.Keys, order);
    MessageTail(r, order);
  }

  /**
   * Every header entry is written on exactly one line of the header block,
   * as `name: value`.
   */
  lemma EachHeaderOnce(r: HttpResponse, order: seq<string>, name: string)
    requires IsEnumeration(r.headers.Keys, order) && name in r.headers
    ensures exists i :: 0 <= i < |order| && order[i] == name &&
                        Message(r, order)[1 + i] == HeaderLine(name, r.headers[name]) &&
                        (forall j :: 0 <= j < |order| && order[j] == name ==> j == i)
  {
    var i :| 0 <= i < |order| && order[i] == name;
    MessageAt(r, order, i);
  }

  /**
   * A completed write adds `1 + |headers| + 1 (+ 1 with a body)` lines to the
   * sink, the message itself, and leaves all of it flushed.
   */
  lemma WrittenLines(r: HttpResponse, order: seq<string>, before: SinkState, capacity: Option<nat>,
                     after: SinkState)
    requires capacity.Some? ==> |before.lines| <= capacity.value
    requires Writes(Some(r), before, capacity, after, Written, order)
    ensures |after.lines| == |before.lines| + 2 + |r.headers| + (if r.body.Some? then 1 else 0)
    ensures after.lines[..|before.lines|] == before.lines
    ensures after.lines[|before.lines|..] == Message(r, order)
    ensures after.flushed == |after.lines|
  {
    MessageLineCount(r, order);
    assert after.lines == before.lines + Message(r, order);
  }

  /**
   * A failed write leaves the lines before the failing one in the sink, does
   * not flush, and reports the IOException.
   */
  lemma FailedLines(r: HttpResponse, order: seq<string>, before: SinkState, capacity: Option<nat>,
                    after: SinkState, outcome: WriteOutcome)
    requires capacity.Some? ==> |before.lines| <= capacity.value
    requires Writes(Some(r), before, capacity, after, outcome, order)
    requires outcome != Written
    ensures outcome == IOFailure(WriteFailedMessage)
    ensures capacity.Some? && |after.lines| == capacity.value
    ensures |after.lines| < |before.lines| + |Message(r, order)|
    ensures after.lines[..|before.lines|] == before.lines
    ensures after.lines[|before.lines|..] == Message(r, order)[..|after.lines| - |before.lines|]
    ensures after.flushed == before.flushed
  {
    var k := capacity.value - |before.lines|;
    assert after.lines == before.lines + Message(r, order)[..k];
  }

  /**
   * The text the lines become on the wire: each one followed by the line
   * separator `eol` of the writer (the platform's, not necessarily CRLF).
   */
  function Render(lines: seq<string>, eol: string): string {
    if lines == [] then []
    else Render(lines[..|lines| - 1], eol) + lines[|lines| - 1] + eol
  }

  lemma {:induction false} RenderAppend(a: seq<string>, b: seq<string>, eol: string)
    ensures Render(a + b, eol) == Render(a, eol) + Render(b, eol)
    decreases |b|
  {
    if b == [] {
      assert a + b == a;
    } else {
      var c := b[..|b| - 1];
      assert (a + b)[..|a + b| - 1] == a + c;
      RenderAppend(a, c, eol);
    }
  }

  /**
   * With a body, the text ends with the body followed by one more line
   * separator, which `Content-Length` does not count: the bytes after the
   * blank line exceed `Content-Length` by the separator's length.
   */
  lemma TrailingTerminatorNotCounted(r: HttpResponse, order: seq<string>, eol: string)
    requires IsEnumeration(r.headers.Keys, order) && r.body.Some?
    ensures Render(Message(r, order), eol)
      == Render([r.statusLine] + HeaderLines(r.headers, order), eol) + eol + (r.body.value + eol)
    ensures Utf8Length(r.body.value + eol) == r.ContentLength() + Utf8Length(eol)
  {
    var head := [r.statusLine] + HeaderLines(r.headers, order);
    assert Message(r, order) == head + [""] + [r.body.value];
    RenderAppend(head + [""], [r.body.value], eol);
    RenderAppend(head, [""], eol);
    assert Render([""], eol) == eol by {
      assert [""][..0] == [];
    }
    assert Render([r.body.value], eol) == r.body.value + eol by {
      assert [r.body.value][..0] == [];
    }
    Utf8LengthConcat(r.body.value, eol);
  }

  /**
   * The iteration order of `headers.entrySet()`: a HashMap promises no
   * particular order, so any enumeration of the keys may come out.
   */
  method EntryOrder(headers: map<string, string>) returns (order: seq<string>)
    ensures IsEnumeration(headers.Keys, order)
  {
    var pending := headers.Keys;
    order := [];
    while pending != {}
      invariant pending <= headers.Keys
      invariant IsEnumeration(headers.Keys - pending, order)
      decreases pending
    {
      var name :| name in pending;
      order := order + [name];
      pending := pending - {name};
    }
    assert headers.Keys - pending == headers.Keys;
  }

  /**
   * The `for` loop of `writeResponse`: one `name: value` line per entry, in
   * iteration order, until a println fails; `count` lines were written.
   */
  method WriteHeaderLines(headers: map<string, string>, order: seq<string>, writer: LineSink)
    returns (ok: bool, count: nat)
    requires forall name :: name in order ==> name in headers
    requires writer.Valid()
    modifies writer
    ensures writer.Valid() && writer.flushed == old(writer.flushed)
    ensures count <= |order| && writer.lines == old(writer.lines) + HeaderLines(headers, order)[..count]
    ensures ok <==> count == |order|
    ensures !ok ==> writer.capacity.Some? && |writer.lines| == writer.capacity.value
  {
    ghost var lines := HeaderLines(headers, order);
    ok, count := true, 0;
    while ok && count < |order|
      invariant count <= |order|
      invariant writer.Valid() && writer.flushed == old(writer.flushed)
      invariant writer.lines == old(writer.lines) + lines[..count]
      invariant !ok ==> count < |order| && writer.capacity.Some? && |writer.lines| == writer.capacity.value
    {
      ok := writer.Println(HeaderLine(order[count], headers[order[count]]));
      if ok {
        HeaderLinesAt(headers, order, count);
        PrefixExtend(lines, count);
        count := count + 1;
      }
    }
  }

  /**
   * Midway through a write: the sink holds what it held `before` plus the
   * first `written` lines of `msg`, nothing more was flushed, and a failed
   * println (`!ok`) left the sink full before the end of the message.
   */
  ghost predicate Progress(writer: LineSink, before: SinkState, msg: seq<string>, written: nat, ok: bool)
    reads writer
  {
    writer.Valid() && writer.flushed == before.flushed && written <= |msg|
    && writer.lines == before.lines + msg[..written]
    && (!ok ==> written < |msg| && writer.capacity.Some? && |writer.lines| == writer.capacity.value)
  }

  /** One `println` of the message's next line inside the `try` block. */
  method Emit(writer: LineSink, line: string, ghost before: SinkState, ghost msg: seq<string>, ghost written: nat)
    returns (ok: bool, ghost written': nat)
    requires Progress(writer, before, msg, written, true)
    requires written < |msg| && msg[written] == line
    modifies writer
    ensures Progress(writer, before, msg, written', ok)
    ensures written' == if ok then written + 1 else written
  {
    ok := writer.Println(line);
    if ok {
      PrefixExtend(msg, written);
      written' := written + 1;
    } else {
      written' := written;
    }
  }

  /** `writeResponse(response, writer)`; `order` is the map's iteration order. */
  method WriteResponse(response: Option<HttpResponse>, writer: LineSink?)
    returns (outcome: WriteOutcome, order: seq<string>)
    requires writer != null ==> writer.Valid()
    modifies writer
    ensures writer != null ==> writer.Valid()
    ensures writer == null ==>
      outcome == IllegalArgument(if response.None? then NullResponseMessage else NullWriterMessage)
    ensures writer != null ==>
      Writes(response, old(writer.State()), writer.capacity, writer.State(), outcome, order)
  {
    order := [];
    if response.None? {
      outcome := IllegalArgument(NullResponseMessage);
      return;
    }
    if writer == null {
      outcome := IllegalArgument(NullWriterMessage);
      return;
    }
    var r := response.value;
    ghost var before := writer.State();
    var headers := r.headers;
    order := EntryOrder(headers);
    ghost var msg := Message(r, order);
    MessageTail(r, order);
    // `written` lines of `msg` are in the sink; a failed println (`!ok`) skips
    // the remaining steps, as the exception would, and leaves the sink full
    ghost var written := 0;

    var ok;
    ok, written := Emit(writer, r.statusLine, before, msg, written);
    if ok {
      var count;
      ok, count := WriteHeaderLines(headers, order, writer);
      MessageHead(r, order, count);
      written := 1 + count;
      assert Progress(writer, before, msg, written, ok);
    }
    if ok {
      ok, written := Emit(writer, "", before, msg, written);
    }
    if ok && r.body.Some? {
      ok, written := Emit(writer, r.body.value, before, msg, written);
    }
    assert ok ==> written == |msg|;
    if ok {
      writer.Flush();
      CompletedWrite(r, order, before, writer.capacity, written, writer.State());
      outcome := Written;
    } else {
      FailedWrite(r, order, before, writer.capacity, written, writer.State());
      outcome := IOFailure(WriteFailedMessage);
    }
  }

  /** `writeOkResponse(content, writer)`: writes `ok(content)`. */
  method WriteOkResponse(content: Option<string>, writer: LineSink?)
    returns (outcome: WriteOutcome, order: seq<string>)
    requires writer != null ==> writer.Valid()
    modifies writer
    ensures writer != null ==> writer.Valid()
    ensures writer == null ==> outcome == IllegalArgument(NullWriterMessage)
    ensures writer != null ==>
      Writes(Some(OkResponse(content)), old(writer.State()), writer.capacity, writer.State(), outcome, order)
  {
    var response := Ok(content);
    outcome, order := WriteResponse(Some(response), writer);
  }

  /** `writeNotFoundResponse(writer)`: writes `notFound()`. */
  method WriteNotFoundResponse(writer: LineSink?)
    returns (outcome: WriteOutcome, order: seq<string>)
    requires writer != null ==> writer.Valid()
    modifies writer
    ensures writer != null ==> writer.Valid()
    ensures writer == null ==> outcome == IllegalArgument(NullWriterMessage)
    ensures writer != null ==>
      Writes(Some(NotFoundResponse), old(writer.State()), writer.capacity, writer.State(), outcome, order)
  {
    var response := NotFound();
    outcome, order := WriteResponse(Some(response), writer);
  }

  /** `writeInternalServerErrorResponse(writer)`: writes `internalServerError()`. */
  method WriteInternalServerErrorResponse(writer: LineSink?)
    returns (outcome: WriteOutcome, order: seq<string>)
    requires writer != null ==> writer.Valid()
    modifies writer
    ensures writer != null ==> writer.Valid()
    ensures writer == null ==> outcome == IllegalArgument(NullWriterMessage)
    ensures writer != null ==>
      Writes(Some(InternalServerErrorResponse), old(writer.State()), writer.capacity, writer.State(), outcome, order)
  {
    var response := InternalServerError();
    outcome, order := WriteResponse(Some(response), writer);
  }
}
