/** The newline-delimited protocol of the agent daemon's socket: the server's
    receive loop, the client's read loop, and what they exchange however the
    byte streams are cut into chunks. */
module IpcFraming {
  import opened Wrappers

  newtype Byte = x: int | 0 <= x < 256

  type Bytes = seq<Byte>

  const NEWLINE: Byte := 10

  // ---- Lines of a byte stream ----

  /** The newline-terminated lines of a stream, and what follows the last
      newline. */
  function Split(s: Bytes): (r: (seq<Bytes>, Bytes)) {
    if s == [] then ([], [])
    else
      var (lines, rest) := Split(s[..|s| - 1]);
      if s[|s| - 1] == NEWLINE then (lines + [rest], []) else (lines, rest + [s[|s| - 1]])
  }

  function Join(lines: seq<Bytes>): Bytes {
    if lines == [] then [] else Join(lines[..|lines| - 1]) + lines[|lines| - 1] + [NEWLINE]
  }

  predicate LineFree(lines: seq<Bytes>) {
    lines != [] ==> NEWLINE !in lines[|lines| - 1] && LineFree(lines[..|lines| - 1])
  }

  function Concat(chunks: seq<Bytes>): Bytes {
    if chunks == [] then [] else Concat(chunks[..|chunks| - 1]) + chunks[|chunks| - 1]
  }

  lemma {:induction false} SplitLineFree(s: Bytes)
    requires NEWLINE !in s
    ensures Split(s) == ([], s)
  {
    if s != [] {
      var n := |s| - 1;
      assert s[n] in s;
      SplitLineFree(s[..n]);
      assert s[..n] + [s[n]] == s;
    }
  }

  lemma {:induction false} SplitSnoc(s: Bytes, b: Byte)
    ensures var (lines, rest) := Split(s);
      Split(s + [b]) == if b == NEWLINE then (lines + [rest], []) else (lines, rest + [b])
  {}

  /** Only the unfinished line matters for what comes next. */
  lemma {:induction false} SplitConcat(s: Bytes, more: Bytes)
    requires NEWLINE !in Split(s).1
    ensures Split(s + more) == (Split(s).0 + Split(Split(s).1 + more).0, Split(Split(s).1 + more).1)
  {
    var (lines, rest) := Split(s);
    if more == [] {
      assert s + more == s && rest + more == rest && lines + [] == lines;
      SplitLineFree(rest);
    } else {
      var n := |more| - 1;
      SplitConcat(s, more[..n]);
      var (lines', rest') := Split(rest + more[..n]);
      assert s + more == s + more[..n] + [more[n]] && rest + more == rest + more[..n] + [more[n]];
      SplitSnoc(s + more[..n], more[n]);
      SplitSnoc(rest + more[..n], more[n]);
      assert lines + (lines' + [rest']) == lines + lines' + [rest'];
    }
  }

  lemma {:induction false} SplitLine(line: Bytes, more: Bytes)
    requires NEWLINE !in line
    ensures Split(line + [NEWLINE] + more) == ([line] + Split(more).0, Split(more).1)
  {
    SplitLineFree(line);
    SplitSnoc(line, NEWLINE);
    assert Split(line + [NEWLINE]) == ([line], []) by {
      assert [] + [line] == [line];
    }
    SplitConcat(line + [NEWLINE], more);
    assert [] + more == more;
  }

  /** Splitting a stream and joining its lines again gives it back. */
  lemma {:induction false} SplitThenJoin(s: Bytes)
    ensures var (lines, rest) := Split(s); Join(lines) + rest == s && LineFree(lines) && NEWLINE !in rest
  {
    if s != [] {
      var n := |s| - 1;
      SplitThenJoin(s[..n]);
      var (lines, rest) := Split(s[..n]);
      assert s == s[..n] + [s[n]];
      if s[n] == NEWLINE {
        assert (lines + [rest])[..|lines|] == lines;
      } else {
        assert Join(lines) + rest + [s[n]] == Join(lines) + (rest + [s[n]]);
      }
    }
  }

  /** Joining newline-free lines and splitting the stream gives them back. */
  lemma {:induction false} JoinThenSplit(lines: seq<Bytes>, rest: Bytes)
    requires LineFree(lines) && NEWLINE !in rest
    ensures Split(Join(lines) + rest) == (lines, rest)
  {
    if lines == [] {
      assert Join(lines) + rest == rest;
      SplitLineFree(rest);
    } else {
      var n := |lines| - 1;
      JoinThenSplit(lines[..n], lines[n]);
      SplitSnoc(Join(lines[..n]) + lines[n], NEWLINE);
      assert lines[..n] + [lines[n]] == lines;
      SplitConcat(Join(lines), rest);
      SplitLineFree(rest);
      assert [] + rest == rest && lines + [] == lines;
    }
  }

  /** The position of the first newline, or the length. */
  function FirstNewline(s: Bytes): (i: nat)
    ensures i <= |s| && NEWLINE !in s[..i]
    ensures i < |s| <==> NEWLINE in s
    ensures i < |s| ==> s[i] == NEWLINE
  {
    if s == [] || s[0] == NEWLINE then 0
    else
      var i := 1 + FirstNewline(s[1..]);
      assert s[..i] == [s[0]] + s[1..][..i - 1];
      i
  }

  /** One step of the loops that cut a line off the buffer. */
  method CutLine(buf: Bytes) returns (line: Bytes, rest: Bytes)
    requires NEWLINE in buf
    ensures NEWLINE !in line && buf == line + [NEWLINE] + rest
  {
    var i := FirstNewline(buf);
    line, rest := buf[..i], buf[i + 1..];
  }

  // ---- The server ----

  /** The parts of the server that come from outside: JSON decoding, which may
      fail, the handler, which sees the lines already handled and may raise, and
      JSON encoding. */
  datatype Server<!Req, !Resp> = Server(
    parse: Bytes -> Option<Req>,
    handle: (seq<Bytes>, Req) -> Option<Resp>,
    encode: Resp -> Bytes,
    invalid: Resp)

  /** The payload answering a line, or nothing if the handler raised. */
  function Answer<Req, Resp>(srv: Server<Req, Resp>, earlier: seq<Bytes>, line: Bytes): Option<Bytes> {
    match srv.parse(line)
    case None => Some(srv.encode(srv.invalid))
    case Some(req) =>
      match srv.handle(earlier, req)
      case None => None
      case Some(resp) => Some(srv.encode(resp))
  }

  /** The answers to some lines, in order, up to the first exception; and
      whether there was none. */
  function Answers<Req, Resp>(srv: Server<Req, Resp>, lines: seq<Bytes>): (r: (seq<Bytes>, bool)) {
    if lines == [] then ([], true)
    else
      var n := |lines| - 1;
      var (sent, ok) := Answers(srv, lines[..n]);
      var answer := Answer(srv, lines[..n], lines[n]);
      if !ok then (sent, false)
      else if answer.None? then (sent, false)
      else (sent + [answer.value], true)
  }

  lemma {:induction false} AnswersGrow<Req, Resp>(srv: Server<Req, Resp>, lines: seq<Bytes>, line: Bytes)
    ensures var (sent, ok) := Answers(srv, lines);
      Answers(srv, lines + [line]) ==
        if !ok then (sent, false)
        else match Answer(srv, lines, line) case None => (sent, false) case Some(a) => (sent + [a], true)
  {}

  /** The line `k` is answered by `payload`: a line that does not parse by the
      error response, another by what the handler made of it. */
  ghost predicate IsAnsweredBy<Req, Resp>(srv: Server<Req, Resp>, lines: seq<Bytes>, k: nat, payload: Bytes)
    requires k < |lines|
  {
    var req := srv.parse(lines[k]);
    if req.None? then payload == srv.encode(srv.invalid)
    else
      var resp := srv.handle(lines[..k], req.value);
      resp.Some? && payload == srv.encode(resp.value)
  }

  /** The handler raises on the line `k`, which parses. */
  ghost predicate Raises<Req, Resp>(srv: Server<Req, Resp>, lines: seq<Bytes>, k: nat)
    requires k < |lines|
  {
    srv.parse(lines[k]).Some? && srv.handle(lines[..k], srv.parse(lines[k]).value).None?
  }

  /** Every line is answered in turn, those that do not parse included, until the
      handler raises. */
  lemma {:induction false} AnswersAreExact<Req, Resp>(srv: Server<Req, Resp>, lines: seq<Bytes>)
    ensures var (sent, ok) := Answers(srv, lines);
      && |sent| <= |lines| && (ok <==> |sent| == |lines|) && (!ok ==> Raises(srv, lines, |sent|))
      && forall k | 0 <= k < |sent| :: IsAnsweredBy(srv, lines, k, sent[k])
  {
    if lines != [] {
      var n := |lines| - 1;
      AnswersAreExact(srv, lines[..n]);
      var sent := Answers(srv, lines[..n]).0;
      forall k | 0 <= k < |sent|
        ensures IsAnsweredBy(srv, lines, k, sent[k])
      {
        assert IsAnsweredBy(srv, lines[..n], k, sent[k]);
        assert lines[..n][..k] == lines[..k];
      }
      if !Answers(srv, lines[..n]).1 {
        assert lines[..n][..|sent|] == lines[..|sent|];
      }
    }
  }

  lemma {:induction false} AnswersStop<Req, Resp>(srv: Server<Req, Resp>, lines: seq<Bytes>, more: seq<Bytes>)
    requires !Answers(srv, lines).1
    ensures Answers(srv, lines + more) == Answers(srv, lines)
  {
    if more == [] {
      assert lines + more == lines;
    } else {
      var n := |more| - 1;
      AnswersStop(srv, lines, more[..n]);
      AnswersGrow(srv, lines + more[..n], more[n]);
      assert lines + more == lines + more[..n] + [more[n]];
    }
  }

  /** The inner loop of `_handle`: the lines of the buffer, after those already
      handled. */
  method HandleBuffer<Req, Resp>(srv: Server<Req, Resp>, earlier: seq<Bytes>, buf: Bytes)
      returns (sent: seq<Bytes>, ok: bool, done: seq<Bytes>, rest: Bytes)
    requires Answers(srv, earlier).1
    ensures (Answers(srv, earlier).0 + sent, ok) == Answers(srv, earlier + Split(buf).0)
    ensures ok ==> done == earlier + Split(buf).0 && rest == Split(buf).1
  {
    sent, ok, done, rest := [], true, earlier, buf;
    assert earlier + Split(buf).0 == done + Split(rest).0;
    assert Answers(srv, earlier).0 + sent == Answers(srv, done).0;
    while NEWLINE in rest
      invariant earlier + Split(buf).0 == done + Split(rest).0
      invariant (Answers(srv, earlier).0 + sent, true) == Answers(srv, done)
      invariant Split(rest).1 == Split(buf).1
      decreases |rest|
    {
      var line, after := CutLine(rest);
      SplitLine(line, after);
      assert done + ([line] + Split(after).0) == done + [line] + Split(after).0;
      AnswersGrow(srv, done, line);
      var answer := Answer(srv, done, line);
      if answer.None? {
        AnswersStop(srv, done + [line], Split(after).0);
        ok := false;
        return;
      }
      assert Answers(srv, earlier).0 + (sent + [answer.value]) == Answers(srv, earlier).0 + sent + [answer.value];
      sent, done, rest := sent + [answer.value], done + [line], after;
    }
    SplitLineFree(rest);
    assert done + [] == done;
  }

  lemma {:induction false} ConcatSplits(chunks: seq<Bytes>, k: nat)
    requires k <= |chunks|
    ensures Concat(chunks) == Concat(chunks[..k]) + Concat(chunks[k..])
  {
    if k == |chunks| {
      assert chunks[..k] == chunks;
    } else {
      var n := |chunks| - 1;
      ConcatSplits(chunks[..n], k);
      assert chunks[..n][..k] == chunks[..k];
      assert chunks[k..][..n - k] == chunks[..n][k..];
    }
  }

  /** Once the handler has raised, the rest of the stream changes nothing. */
  lemma {:induction false} NothingAfterException<Req, Resp>(srv: Server<Req, Resp>, chunks: seq<Bytes>, k: nat)
    requires k <= |chunks| && !Answers(srv, Split(Concat(chunks[..k])).0).1
    ensures Answers(srv, Split(Concat(chunks)).0) == Answers(srv, Split(Concat(chunks[..k])).0)
  {
    var s, more := Concat(chunks[..k]), Concat(chunks[k..]);
    ConcatSplits(chunks, k);
    SplitThenJoin(s);
    SplitConcat(s, more);
    AnswersStop(srv, Split(s).0, Split(Split(s).1 + more).0);
  }

  /** The receive loop of `_handle`, on the chunks read before the connection
      closes: the payloads sent, without their newlines, whether it ended
      normally, and what was left in the buffer.  However the stream is cut,
      these are the answers to its lines, in order. */
  method Handle<Req, Resp>(srv: Server<Req, Resp>, chunks: seq<Bytes>)
      returns (sent: seq<Bytes>, ok: bool, buf: Bytes)
    ensures (sent, ok) == Answers(srv, Split(Concat(chunks)).0)
    ensures ok ==> buf == Split(Concat(chunks)).1
  {
    sent, ok, buf := [], true, [];
    var done: seq<Bytes> := [];
    for i := 0 to |chunks|
      invariant ok && (sent, ok) == Answers(srv, Split(Concat(chunks[..i])).0)
      invariant (done, buf) == Split(Concat(chunks[..i]))
    {
      ghost var before := Concat(chunks[..i]);
      assert chunks[..i + 1][..i] == chunks[..i];
      assert Concat(chunks[..i + 1]) == before + chunks[i];
      SplitThenJoin(before);
      SplitConcat(before, chunks[i]);
      var more;
      more, ok, done, buf := HandleBuffer(srv, done, buf + chunks[i]);
      sent := sent + more;
      if !ok {
        NothingAfterException(srv, chunks, i + 1);
        return;
      }
    }
    assert chunks[..|chunks|] == chunks;
  }

  // ---- The client ----

  datatype Received<+Resp> = Response(resp: Option<Resp>) | ConnectionClosed

  /** What a client makes of the bytes sent to it: the first line, decoded. */
  function FirstResponse<Resp>(decode: Bytes -> Option<Resp>, s: Bytes): Received<Resp> {
    var lines := Split(s).0;
    if lines == [] then ConnectionClosed else Response(decode(lines[0]))
  }

  lemma {:induction false} NewlineMeansLine(s: Bytes)
    ensures NEWLINE in s <==> Split(s).0 != []
  {
    if s != [] {
      var n := |s| - 1;
      NewlineMeansLine(s[..n]);
      assert s == s[..n] + [s[n]];
    }
  }

  /** The client decodes what stands before the first newline, whatever follows;
      without a newline it reports a closed connection. */
  lemma {:induction false} FirstResponseIsExact<Resp>(decode: Bytes -> Option<Resp>, line: Bytes, more: Bytes)
    requires NEWLINE !in line
    ensures FirstResponse(decode, line + [NEWLINE] + more) == Response(decode(line))
    ensures FirstResponse(decode, line) == ConnectionClosed
  {
    SplitLine(line, more);
    SplitLineFree(line);
  }

  /** The read loop of `send`, on the chunks that arrive before the connection
      closes; it stops reading at the first newline. */
  method Receive<Resp>(decode: Bytes -> Option<Resp>, chunks: seq<Bytes>) returns (r: Received<Resp>)
    ensures r == FirstResponse(decode, Concat(chunks))
  {
    var buf: Bytes := [];
    var i := 0;
    while NEWLINE !in buf
      invariant i <= |chunks| && buf == Concat(chunks[..i])
      decreases |chunks| - i
    {
      if i == |chunks| {
        assert chunks[..i] == chunks;
        NewlineMeansLine(buf);
        return ConnectionClosed;
      }
      assert chunks[..i + 1][..i] == chunks[..i];
      buf := buf + chunks[i];
      i := i + 1;
    }
    var line, rest := CutLine(buf);
    SplitLine(line, rest + Concat(chunks[i..]));
    ConcatSplits(chunks, i);
    assert Concat(chunks) == line + [NEWLINE] + (rest + Concat(chunks[i..]));
    return Response(decode(line));
  }

  // ---- The exchange ----

  /** One request, sent whole and received in any pieces by the server, and its
      response, received in any pieces by the client: the client gets what the
      handler returned.  JSON text holds no newline, and both sides decode what
      the other encodes. */
  lemma {:induction false} RequestMeetsResponse<Req, Resp>(srv: Server<Req, Resp>, payload: Bytes, req: Req, resp: Resp,
      decode: Bytes -> Option<Resp>, upstream: seq<Bytes>, downstream: seq<Bytes>)
    requires NEWLINE !in payload && srv.parse(payload) == Some(req) && srv.handle([], req) == Some(resp)
    requires NEWLINE !in srv.encode(resp) && decode(srv.encode(resp)) == Some(resp)
    requires Concat(upstream) == payload + [NEWLINE]
    requires Concat(downstream) == Join(Answers(srv, Split(Concat(upstream)).0).0)
    ensures Answers(srv, Split(Concat(upstream)).0) == ([srv.encode(resp)], true)
    ensures FirstResponse(decode, Concat(downstream)) == Response(Some(resp))
  {
    var line := srv.encode(resp);
    OneLine(payload);
    AnswersGrow(srv, [], payload);
    assert Answers(srv, [payload]) == ([line], true) by {
      assert [] + [payload] == [payload] && [] + [line] == [line];
    }
    OneLine(line);
  }

  lemma {:induction false} OneLine(line: Bytes)
    requires NEWLINE !in line
    ensures Split(line + [NEWLINE]) == ([line], []) && Join([line]) == line + [NEWLINE]
  {
    SplitLineFree(line);
    SplitSnoc(line, NEWLINE);
    assert [] + [line] == [line];
    assert [line][..0] == [] && [] + line == line;
  }

  /** Any number of responses can be told apart by the client's framing. */
  lemma {:induction false} ResponsesStayApart(payloads: seq<Bytes>)
    requires LineFree(payloads)
    ensures Split(Join(payloads)) == (payloads, [])
  {
    JoinThenSplit(payloads, []);
    assert Join(payloads) + [] == Join(payloads);
  }
}
