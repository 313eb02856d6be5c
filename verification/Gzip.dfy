/** The compressing response writer (apis/middlewares_gzip.go): it buffers the body until it is
    long enough, or a flush asks for it, and only then decides to compress. */
module Gzip {
  import opened Wrappers

  type Bytes = seq<bv8>

  /** What a handler does with the response. */
  datatype Op = Write(data: Bytes) | WriteHeader(code: int) | Flush

  /** What goes over the wire: plain bytes, or the parts of a gzip stream. */
  datatype Piece = Raw(data: Bytes) | GzipStart | GzipData(data: Bytes) | GzipEnd

  datatype Head = Head(code: int, gzip: bool)

  /** The writer underneath: its header can change until it is sent, with the first WriteHeader
      or with the first bytes. `headerCalls` counts the calls of WriteHeader. */
  datatype Client = Client(gzipHeader: bool, sent: Option<Head>, pieces: seq<Piece>, headerCalls: nat)

  /** The writer in front; `gzipStarted` belongs to its gzip.Writer. */
  datatype State = State(client: Client, gzipStarted: bool, buffer: Bytes, code: int,
                         wroteHeader: bool, wroteBody: bool, minLengthExceeded: bool)

  // ---- the specification ------------------------------------------------------------------------------

  const START := State(Client(false, None, [], 0), false, [], 0, false, false, false)

  function SentHead(c: Client, code: int): Client {
    if c.sent.Some? then c else c.(sent := Some(Head(code, c.gzipHeader)))
  }

  function HeaderWritten(c: Client, code: int): Client {
    SentHead(c, code).(headerCalls := c.headerCalls + 1)
  }

  /** Bytes without a header imply the status 200. */
  function PieceWritten(c: Client, p: Piece): Client {
    SentHead(c, 200).(pieces := c.pieces + [p])
  }

  /** gzip.Writer.Write starts the stream if need be. */
  function Compressed(s: State, data: Bytes): State {
    var c := if s.gzipStarted then s.client else PieceWritten(s.client, GzipStart);
    s.(gzipStarted := true, client := PieceWritten(c, GzipData(data)))
  }

  /** The decision to compress: the header goes out, then what was held back. */
  function Decided(s: State): State {
    var c := s.client.(gzipHeader := true);
    Compressed(s.(minLengthExceeded := true, client := if s.wroteHeader then HeaderWritten(c, s.code) else c), s.buffer)
  }

  function Exec(s: State, minLength: nat, op: Op): State {
    match op
    case WriteHeader(code) => s.(wroteHeader := true, code := code)
    case Write(data) =>
      if s.minLengthExceeded then Compressed(s.(wroteBody := true), data)
      else
        var t := s.(wroteBody := true, buffer := s.buffer + data);
        if |t.buffer| >= minLength then Decided(t) else t
    case Flush => if s.minLengthExceeded then s else Decided(s)
  }

  function ExecAll(minLength: nat, ops: seq<Op>): State {
    if ops == [] then START else Exec(ExecAll(minLength, ops[..|ops| - 1]), minLength, ops[|ops| - 1])
  }

  /** When the handler has returned. The gzip stream is closed towards the client only if some
      body was compressed. */
  function Finished(s: State): Client {
    if !s.wroteBody then
      var c := s.client.(gzipHeader := false);
      if s.wroteHeader then HeaderWritten(c, s.code) else c
    else if !s.minLengthExceeded then
      PieceWritten(if s.wroteHeader then HeaderWritten(s.client, s.code) else s.client, Raw(s.buffer))
    else PieceWritten(s.client, GzipEnd)
  }

  // ---- what the client makes of it --------------------------------------------------------------------

  /** The server sends a header of its own when nobody did. */
  function HeadOf(c: Client): Head {
    if c.sent.Some? then c.sent.value else Head(200, c.gzipHeader)
  }

  function PlainBody(pieces: seq<Piece>): Option<Bytes> {
    if pieces == [] then Some([])
    else
      var init := PlainBody(pieces[..|pieces| - 1]);
      var last := pieces[|pieces| - 1];
      if init.Some? && last.Raw? then Some(init.value + last.data) else None
  }

  /** The data of a gzip stream that has begun and not yet ended. */
  function OpenStream(pieces: seq<Piece>): Option<Bytes> {
    if pieces == [] then None
    else if |pieces| == 1 then if pieces[0].GzipStart? then Some([]) else None
    else
      var init := OpenStream(pieces[..|pieces| - 1]);
      var last := pieces[|pieces| - 1];
      if init.Some? && last.GzipData? then Some(init.value + last.data) else None
  }

  /** A gzip body must be one whole stream. */
  function Decoded(c: Client): Option<Bytes> {
    if !HeadOf(c).gzip then PlainBody(c.pieces)
    else if c.pieces == [] || !c.pieces[|c.pieces| - 1].GzipEnd? then None
    else OpenStream(c.pieces[..|c.pieces| - 1])
  }

  // ---- the sequence of operations by itself -----------------------------------------------------------

  function Body(ops: seq<Op>): Bytes {
    if ops == [] then []
    else Body(ops[..|ops| - 1]) + (if ops[|ops| - 1].Write? then ops[|ops| - 1].data else [])
  }

  predicate HasWrite(ops: seq<Op>) {
    ops != [] && (ops[|ops| - 1].Write? || HasWrite(ops[..|ops| - 1]))
  }

  predicate HasFlush(ops: seq<Op>) {
    ops != [] && (ops[|ops| - 1].Flush? || HasFlush(ops[..|ops| - 1]))
  }

  /** The last code set, if any. */
  function LastCode(ops: seq<Op>): Option<int> {
    if ops == [] then None
    else if ops[|ops| - 1].WriteHeader? then Some(ops[|ops| - 1].code)
    else LastCode(ops[..|ops| - 1])
  }

  /** The response is to be compressed: something was written and the minimum reached, or flushed. */
  predicate Compresses(minLength: nat, ops: seq<Op>) {
    HasFlush(ops) || (HasWrite(ops) && |Body(ops)| >= minLength)
  }

  /** The operations before the header goes out: up to the one that makes it compress, or all. */
  function BeforeHeader(minLength: nat, ops: seq<Op>): (r: seq<Op>)
    ensures r <= ops
  {
    if ops == [] then []
    else if Compresses(minLength, ops[..|ops| - 1]) then BeforeHeader(minLength, ops[..|ops| - 1])
    else if Compresses(minLength, ops) then ops[..|ops| - 1]
    else ops
  }

  function StatusOf(code: Option<int>): int {
    if code.Some? then code.value else 200
  }

  // ---- transparency -----------------------------------------------------------------------------------

  /** The state after any operations, in terms of the operations alone. */
  ghost predicate Describes(minLength: nat, ops: seq<Op>, s: State) {
    && s.wroteBody == HasWrite(ops)
    && (s.wroteHeader <==> LastCode(ops).Some?) && (s.wroteHeader ==> s.code == LastCode(ops).value)
    && s.minLengthExceeded == Compresses(minLength, ops)
    && if Compresses(minLength, ops) then
         var code := LastCode(BeforeHeader(minLength, ops));
         && s.gzipStarted && s.client.gzipHeader
         && s.client.sent == Some(Head(StatusOf(code), true))
         && s.client.headerCalls == (if code.Some? then 1 else 0)
         && OpenStream(s.client.pieces) == Some(Body(ops))
       else
         && !s.gzipStarted && s.client == START.client && s.buffer == Body(ops)
  }

  lemma StreamStep(pieces: seq<Piece>, data: Bytes)
    requires OpenStream(pieces).Some?
    ensures OpenStream(pieces + [GzipData(data)]) == Some(OpenStream(pieces).value + data)
  {
    assert (pieces + [GzipData(data)])[..|pieces|] == pieces;
  }

  lemma DecidedDescribes(minLength: nat, init: seq<Op>, ops: seq<Op>, s: State)
    requires ops != [] && init == ops[..|ops| - 1] && !Compresses(minLength, init) && Compresses(minLength, ops)
    requires s.client == START.client && !s.gzipStarted && s.buffer == Body(ops)
    requires s.wroteBody == HasWrite(ops) && LastCode(init) == LastCode(ops)
    requires (s.wroteHeader <==> LastCode(ops).Some?) && (s.wroteHeader ==> s.code == LastCode(ops).value)
    ensures Describes(minLength, ops, Decided(s))
  {
    var t := Decided(s);
    assert BeforeHeader(minLength, ops) == init;
    var start: seq<Piece> := [GzipStart];
    assert OpenStream(start) == Some([]);
    StreamStep(start, s.buffer);
    assert t.client.pieces == start + [GzipData(s.buffer)];
    assert [] + s.buffer == s.buffer;
  }

  lemma {:induction false} StateDescribed(minLength: nat, ops: seq<Op>)
    ensures Describes(minLength, ops, ExecAll(minLength, ops))
  {
    if ops != [] {
      var n := |ops| - 1;
      var init, op := ops[..n], ops[n];
      StateDescribed(minLength, init);
      var s := ExecAll(minLength, init);
      StepDescribed(minLength, ops, s);
    }
  }

  lemma StepDescribed(minLength: nat, ops: seq<Op>, s: State)
    requires ops != [] && Describes(minLength, ops[..|ops| - 1], s)
    ensures Describes(minLength, ops, Exec(s, minLength, ops[|ops| - 1]))
  {
    var n := |ops| - 1;
    var init, op := ops[..n], ops[n];
    match op
    case WriteHeader(code) =>
      assert Body(ops) == Body(init) + [] == Body(init);
    case Write(data) =>
      assert Body(ops) == Body(init) + data;
      if s.minLengthExceeded {
        StreamStep(s.client.pieces, data);
      } else if |s.buffer + data| >= minLength {
        DecidedDescribes(minLength, init, ops, s.(wroteBody := true, buffer := s.buffer + data));
      }
    case Flush =>
      assert Body(ops) == Body(init) + [] == Body(init);
      if !s.minLengthExceeded {
        DecidedDescribes(minLength, init, ops, s);
      }
  }

  lemma {:induction false} NoBody(ops: seq<Op>)
    requires !HasWrite(ops)
    ensures Body(ops) == []
  {
    if ops != [] {
      NoBody(ops[..|ops| - 1]);
    }
  }

  lemma CompressedDecodes(minLength: nat, ops: seq<Op>, s: State)
    requires Describes(minLength, ops, s) && Compresses(minLength, ops) && HasWrite(ops)
    ensures Decoded(Finished(s)) == Some(Body(ops)) && HeadOf(Finished(s)) == s.client.sent.value
  {
    var c := Finished(s);
    assert c.pieces == s.client.pieces + [GzipEnd];
    assert c.pieces[..|c.pieces| - 1] == s.client.pieces;
  }

  lemma BufferedDecodes(minLength: nat, ops: seq<Op>, s: State)
    requires Describes(minLength, ops, s) && !Compresses(minLength, ops)
    ensures Decoded(Finished(s)) == Some(Body(ops))
    ensures HeadOf(Finished(s)) == Head(StatusOf(LastCode(ops)), false)
  {
    var c := Finished(s);
    if HasWrite(ops) {
      assert c.pieces == [Raw(s.buffer)];
      assert c.pieces[..|c.pieces| - 1] == [];
      assert PlainBody([]) == Some([]);
      assert PlainBody(c.pieces) == Some([] + s.buffer);
      assert [] + s.buffer == s.buffer;
    } else {
      NoBody(ops);
    }
  }

  /** A flush with no write leaves a stream that never ends. */
  lemma FlushedEmptyFails(minLength: nat, ops: seq<Op>, s: State)
    requires Describes(minLength, ops, s) && HasFlush(ops) && !HasWrite(ops)
    ensures Decoded(Finished(s)) == None && HeadOf(Finished(s)) == s.client.sent.value
  {
    assert Finished(s).pieces == s.client.pieces;
    assert OpenStream(s.client.pieces).Some?;
  }

  /** The client gets, decoded, exactly the bytes the handler wrote, in order, unless there was a
      flush and nothing was ever written: then it gets a gzip stream without an end. */
  lemma TransparentUnlessFlushedEmpty(minLength: nat, ops: seq<Op>)
    ensures Decoded(Finished(ExecAll(minLength, ops))) == Some(Body(ops)) <==> (HasFlush(ops) ==> HasWrite(ops))
  {
    hide Describes, Finished, Decoded, Body;
    var s := ExecAll(minLength, ops);
    StateDescribed(minLength, ops);
    if !Compresses(minLength, ops) {
      BufferedDecodes(minLength, ops, s);
    } else if HasWrite(ops) {
      CompressedDecodes(minLength, ops, s);
    } else {
      FlushedEmptyFails(minLength, ops, s);
    }
  }

  /** The body is declared and sent as gzip exactly when something was flushed or the minimum
      length was reached, with the last status set before that was decided. */
  lemma CompressedExactlyWhenDecided(minLength: nat, ops: seq<Op>)
    ensures HeadOf(Finished(ExecAll(minLength, ops))) ==
            Head(StatusOf(LastCode(BeforeHeader(minLength, ops))), Compresses(minLength, ops))
  {
    hide Finished, Decoded, Body;
    var s := ExecAll(minLength, ops);
    StateDescribed(minLength, ops);
    if !Compresses(minLength, ops) {
      BufferedDecodes(minLength, ops, s);
      NothingDecided(minLength, ops);
    } else if HasWrite(ops) {
      CompressedDecodes(minLength, ops, s);
    } else {
      FlushedEmptyFails(minLength, ops, s);
    }
  }

  lemma {:induction false} CompressesStays(minLength: nat, ops: seq<Op>)
    requires ops != [] && Compresses(minLength, ops[..|ops| - 1])
    ensures Compresses(minLength, ops)
  {
  }

  lemma NothingDecided(minLength: nat, ops: seq<Op>)
    requires !Compresses(minLength, ops)
    ensures BeforeHeader(minLength, ops) == ops
  {
    if ops != [] && Compresses(minLength, ops[..|ops| - 1]) {
      CompressesStays(minLength, ops);
      assert false;
    }
  }

  /** The header of the writer underneath is written at most once, exactly unless a code was set,
      then something flushed, and nothing ever written: the end writes it again. */
  lemma HeaderWrittenOnce(minLength: nat, ops: seq<Op>)
    ensures Finished(ExecAll(minLength, ops)).headerCalls <= 1 <==>
            HasWrite(ops) || !HasFlush(ops) || LastCode(BeforeHeader(minLength, ops)).None?
  {
    StateDescribed(minLength, ops);
    CodesStay(ops, BeforeHeader(minLength, ops));
  }

  lemma {:induction false} CodesStay(ops: seq<Op>, some: seq<Op>)
    requires some <= ops
    ensures LastCode(some).Some? ==> LastCode(ops).Some?
  {
    if some != ops {
      CodesStay(ops[..|ops| - 1], some);
    }
  }

  // ---- the code ---------------------------------------------------------------------------------------

  class ResponseWriter {
    var gzipHeader: bool
    var sent: Option<Head>
    var pieces: seq<Piece>
    var headerCalls: nat

    constructor ()
      ensures View() == START.client
    {
      gzipHeader, sent, pieces, headerCalls := false, None, [], 0;
    }

    function View(): Client
      reads this
    {
      Client(gzipHeader, sent, pieces, headerCalls)
    }

    method WriteHeader(code: int)
      modifies this
      ensures View() == HeaderWritten(old(View()), code)
    {
      if sent.None? {
        sent := Some(Head(code, gzipHeader));
      }
      headerCalls := headerCalls + 1;
    }

    method Write(p: Piece)
      modifies this
      ensures View() == PieceWritten(old(View()), p)
    {
      if sent.None? {
        sent := Some(Head(200, gzipHeader));
      }
      pieces := pieces + [p];
    }
  }

  class GzipResponseWriter {
    const rw: ResponseWriter
    const minLength: nat
    var gzipStarted: bool
    var buffer: Bytes
    var code: int
    var wroteHeader: bool
    var wroteBody: bool
    var minLengthExceeded: bool

    constructor (rw: ResponseWriter, minLength: nat)
      requires rw.View() == START.client
      ensures this.rw == rw && this.minLength == minLength && View() == START
    {
      this.rw, this.minLength := rw, minLength;
      gzipStarted, buffer, code, wroteHeader, wroteBody, minLengthExceeded := false, [], 0, false, false, false;
    }

    function View(): State
      reads this, rw
    {
      State(rw.View(), gzipStarted, buffer, code, wroteHeader, wroteBody, minLengthExceeded)
    }

    /** gzip.Writer.Write. */
    method Compress(data: Bytes)
      modifies this, rw
      ensures View() == Compressed(old(View()), data)
    {
      if !gzipStarted {
        rw.Write(GzipStart);
        gzipStarted := true;
      }
      rw.Write(GzipData(data));
    }

    method WriteHeader(code: int)
      modifies this, rw
      ensures View() == Exec(old(View()), minLength, Op.WriteHeader(code))
    {
      wroteHeader := true;
      this.code := code;
    }

    method Write(b: Bytes)
      modifies this, rw
      ensures View() == Exec(old(View()), minLength, Op.Write(b))
    {
      wroteBody := true;
      if !minLengthExceeded {
        buffer := buffer + b;
        if |buffer| >= minLength {
          minLengthExceeded := true;
          rw.gzipHeader := true;
          if wroteHeader {
            rw.WriteHeader(code);
          }
          Compress(buffer);
        }
      } else {
        Compress(b);
      }
    }

    method Flush()
      modifies this, rw
      ensures View() == Exec(old(View()), minLength, Op.Flush)
    {
      if !minLengthExceeded {
        minLengthExceeded := true;
        rw.gzipHeader := true;
        if wroteHeader {
          rw.WriteHeader(code);
        }
        Compress(buffer);
      }
    }

    /** The deferred part of the middleware. */
    method Finish()
      modifies this, rw
      ensures rw.View() == Finished(old(View()))
    {
      var toClient := true;
      if !wroteBody {
        if rw.gzipHeader {
          rw.gzipHeader := false;
        }
        if wroteHeader {
          rw.WriteHeader(code);
        }
        toClient := false;
      } else if !minLengthExceeded {
        if wroteHeader {
          rw.WriteHeader(code);
        }
        rw.Write(Raw(buffer));
        toClient := false;
      }
      if toClient {
        rw.Write(GzipEnd);
      }
    }
  }

  /** A whole request: the handler's operations, then the end. */
  method Serve(minLength: nat, ops: seq<Op>) returns (rw: ResponseWriter)
    ensures fresh(rw) && rw.View() == Finished(ExecAll(minLength, ops))
  {
    rw := new ResponseWriter();
    var grw := new GzipResponseWriter(rw, minLength);
    for i := 0 to |ops|
      invariant fresh(grw) && fresh(rw) && grw.rw == rw && grw.minLength == minLength
      invariant grw.View() == ExecAll(minLength, ops[..i])
    {
      assert ops[..i + 1][..i] == ops[..i];
      match ops[i]
      case WriteHeader(code) => grw.WriteHeader(code);
      case Write(data) => grw.Write(data);
      case Flush => grw.Flush();
    }
    assert ops[..|ops|] == ops;
    grw.Finish();
  }
}
