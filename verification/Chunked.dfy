/**
 * Chunked transfer coding: the encoder of web/httpserver.cpp and a decoder
 * that follows section 4.1 of RFC 7230.
 */
module Chunked {
  import opened Text
  import opened FdBuffer

  const CRLF: string := "\r\n"
  const LAST_CHUNK: string := "0\r\n\r\n"

  function EncodeChunk(data: string): string {
    Numeral(|data|, 16) + (CRLF + (data + CRLF))
  }

  function EncodeChunks(chunks: seq<string>): string {
    if chunks == [] then "" else EncodeChunk(chunks[0]) + EncodeChunks(chunks[1..])
  }

  /** The message body a client recovers, or None for a malformed body. */
  function Dechunk(s: string): Option<string>
    decreases |s|
  {
    var k := DigitRun(s, 0, 16);
    if k == 0 || !At(s, k, "\r\n") then None else
    var size, body := Eval(s[..k], 16), s[k + 2..];
    if size == 0 then
      if body == "\r\n" then Some("") else None
    else if !At(body, size, "\r\n") then None
    else
      var rest :- Dechunk(body[size + 2..]);
      Some(body[..size] + rest)
  }

  lemma {:induction false} EncodeSnoc(chunks: seq<string>, c: string)
    ensures EncodeChunks(chunks + [c]) == EncodeChunks(chunks) + EncodeChunk(c)
  {
    if chunks == [] {
      assert chunks + [c] == [c];
      assert EncodeChunks([c]) == EncodeChunk(c) + "";
    } else {
      EncodeSnoc(chunks[1..], c);
      assert (chunks + [c])[1..] == chunks[1..] + [c];
    }
  }

  /** A chunk's size and what follows its line. */
  lemma SizeRead(n: nat, body: string)
    ensures
      var num := Numeral(n, 16);
      var s := num + CRLF + body;
      && num != "" && DigitRun(s, 0, 16) == |num| && At(s, |num|, CRLF)
      && Eval(s[..|num|], 16) == n && s[|num| + 2..] == body
  {
    hide Numeral;
    var num := Numeral(n, 16);
    var s := num + CRLF + body;
    AtMiddle(num, CRLF, body);
    assert s[..|num|] == num && s[|num|] == '\r';
    DigitRunAt(s, 0, num, 16);
    EvalNumeral(n, 16);
  }

  lemma HeadDecodes(c: string, rest: string)
    ensures Dechunk(EncodeChunk(c) + rest) ==
            if c == "" then (if rest == "" then Some("") else None)
            else if Dechunk(rest).None? then None
            else Some(c + Dechunk(rest).value)
  {
    hide DigitRun, Eval, Numeral;
    var body := c + CRLF + rest;
    SizeRead(|c|, body);
    assert EncodeChunk(c) + rest == Numeral(|c|, 16) + CRLF + body;
    AtMiddle(c, CRLF, rest);
    assert body[..|c|] == c && body[|c| + 2..] == rest;
    assert c == "" ==> (body == CRLF <==> rest == "") by {
      assert |body| == |c| + 2 + |rest|;
    }
  }

  /**
   * A client recovers exactly the concatenated chunks if and only if no chunk
   * is empty; an empty chunk makes the body malformed.
   */
  lemma {:induction false} DechunkEncode(chunks: seq<string>)
    ensures Dechunk(EncodeChunks(chunks) + LAST_CHUNK) == if "" in chunks then None else Some(Concat(chunks))
  {
    if chunks == [] {
      assert EncodeChunk("") == LAST_CHUNK by {
        assert Numeral(0, 16) == "0";
      }
      HeadDecodes("", "");
      assert EncodeChunk("") + "" == EncodeChunks(chunks) + LAST_CHUNK;
    } else {
      var rest := EncodeChunks(chunks[1..]) + LAST_CHUNK;
      assert EncodeChunks(chunks) + LAST_CHUNK == EncodeChunk(chunks[0]) + rest;
      DechunkEncode(chunks[1..]);
      HeadDecodes(chunks[0], rest);
      assert "" in chunks <==> chunks[0] == "" || "" in chunks[1..];
    }
  }

  /** A chunk that is cut off behind its size. */
  lemma CutData(n: nat, more: string)
    requires |more| < n + 2
    ensures Dechunk(Numeral(n, 16) + CRLF + more).None?
  {
    hide DigitRun, Eval, Numeral;
    SizeRead(n, more);
  }

  /** A chunk that is cut off anywhere. */
  lemma CutChunk(c: string, rest: string, s: string)
    requires s <= EncodeChunk(c) + rest && |s| < |EncodeChunk(c)|
    ensures Dechunk(s).None?
  {
    hide Dechunk, Numeral;
    var num := Numeral(|c|, 16);
    var head := num + CRLF;
    assert EncodeChunk(c) + rest == head + (c + CRLF + rest);
    assert |EncodeChunk(c)| == |head| + |c| + 2;
    if |s| < |head| {
      assert s <= head;
      CutNumber(num, s);
    } else {
      CutData(|c|, s[|head|..]);
      assert s == head + s[|head|..];
    }
  }

  /** A size without its line end is no size. */
  lemma CutNumber(num: string, s: string)
    requires AllDigits(num, 16) && |s| < |num| + 2 && s <= num + CRLF
    ensures Dechunk(s).None?
  {
    hide Eval, DigitRun;
    var digits := if |s| <= |num| then s else num;
    assert digits == num[..|digits|];
    assert s == digits + s[|digits|..];
    assert |s| > |num| ==> s[|num|] == CRLF[0];
    DigitRunAt(s, 0, digits, 16);
    assert !At(s, |digits|, CRLF);
  }

  /** A body that is cut off anywhere is malformed: a client never takes it for a whole one. */
  lemma {:induction false} CutBody(chunks: seq<string>, s: string)
    requires "" !in chunks
    requires s <= EncodeChunks(chunks) + LAST_CHUNK && s != EncodeChunks(chunks) + LAST_CHUNK
    ensures Dechunk(s).None?
  {
    hide Dechunk, EncodeChunk;
    if chunks == [] {
      assert EncodeChunk("") == LAST_CHUNK by { LastIsEmpty(); }
      assert EncodeChunk("") + "" == EncodeChunks(chunks) + LAST_CHUNK;
      assert |s| < |EncodeChunk("") + ""|;
      CutChunk("", "", s);
    } else {
      var c, rest := chunks[0], EncodeChunks(chunks[1..]) + LAST_CHUNK;
      assert EncodeChunks(chunks) + LAST_CHUNK == EncodeChunk(c) + rest;
      if |s| < |EncodeChunk(c)| {
        CutChunk(c, rest, s);
      } else {
        var more := s[|EncodeChunk(c)|..];
        assert s == EncodeChunk(c) + more && more <= rest;
        CutBody(chunks[1..], more);
        HeadDecodes(c, more);
        assert c in chunks;
      }
    }
  }

  lemma LastIsEmpty()
    ensures EncodeChunk("") == LAST_CHUNK
  {
    assert Numeral(0, 16) == "0";
  }

  lemma CutBodyFails(start: string, chunks: seq<string>, wire: string)
    requires "" !in chunks && wire < start + EncodeChunks(chunks) + LAST_CHUNK && start <= wire
    ensures Dechunk(wire[|start|..]).None?
  {
    hide Dechunk, EncodeChunks;
    var s := wire[|start|..];
    assert s <= EncodeChunks(chunks) + LAST_CHUNK;
    CutBody(chunks, s);
  }

  lemma BodyDecodes(start: string, chunks: seq<string>, wire: string)
    requires wire == start + EncodeChunks(chunks) + LAST_CHUNK && "" !in chunks
    ensures start <= wire && Dechunk(wire[|start|..]) == Some(Concat(chunks))
  {
    assert wire[|start|..] == EncodeChunks(chunks) + LAST_CHUNK;
    DechunkEncode(chunks);
  }

  /**
   * A chunked response stream over a socket stream. `sinkGood` is the state of
   * the socket's ostream, `good` that of the chunk stream itself.
   */
  class ChunkStream {
    const sink: FdBuf
    var sinkGood: bool
    var buffer: string         // bytes inserted since the last flush
    var totalWritten: nat
    var good: bool
    ghost const start: string  // what the socket stream carried before
    ghost const usable: bool   // whether the socket's ostream was good then
    ghost var chunks: seq<string>

    ghost predicate Valid()
      reads this, sink, sink.outbuf
    {
      && sink.Valid()
      && "" !in chunks
      && totalWritten == |Concat(chunks)|
      && (sinkGood ==> sink.Stream() == start + EncodeChunks(chunks))
      && (!sinkGood ==> sink.Stream() <= start + EncodeChunks(chunks))
      && (!usable ==> !sinkGood && sink.Stream() == start)
    }

    /** Every byte inserted so far. */
    ghost function Payload(): string
      reads this
    {
      Concat(chunks) + buffer
    }

    constructor (sink: FdBuf, sinkGood: bool)
      requires sink.Valid()
      ensures Valid() && this.sink == sink && this.sinkGood == sinkGood
      ensures good && Payload() == "" && chunks == [] && start == sink.Stream() && usable == sinkGood
    {
      this.sink, this.sinkGood := sink, sinkGood;
      buffer, totalWritten, good := "", 0, true;
      start, chunks, usable := sink.Stream(), [], sinkGood;
    }

    method Write(s: string)
      requires Valid()
      modifies this`buffer
      ensures Valid()
      ensures Payload() == if good then old(Payload()) + s else old(Payload())
    {
      if good {
        buffer := buffer + s;
        assert Payload() == old(Payload()) + s;
      }
    }

    /** tellp: the number of bytes inserted, however flushes fell; -1 once the stream failed. */
    method Tell() returns (pos: int)
      requires Valid()
      ensures pos == if good then |Payload()| else -1
    {
      pos := if good then totalWritten + |buffer| else -1;
    }

    /** Inserts text into the socket's ostream and flushes it; a no-op once that has failed. */
    method Send(s: string)
      requires sink.Valid()
      modifies this`sinkGood, sink, sink.outbuf
      ensures sink.Valid()
      ensures sinkGood ==> old(sinkGood) && sink.fd == sink.Stream() == old(sink.Stream()) + s
      ensures !sinkGood && old(sinkGood) ==> sink.Stream() < old(sink.Stream()) + s
      ensures !old(sinkGood) ==> sink.Stream() == old(sink.Stream())
      ensures NeverFails(old(sink.script)) ==> sinkGood == old(sinkGood) && NeverFails(sink.script)
    {
      if sinkGood {
        sinkGood := sink.PutAll(s);
      }
      if sinkGood {
        sinkGood := sink.SyncBuffer();
      }
    }

    /** chunkbuf::sync: a non-empty buffer becomes one chunk; an empty one becomes none. */
    method SyncChunk() returns (ok: bool)
      requires Valid()
      modifies this, sink, sink.outbuf
      ensures Valid() && Payload() == old(Payload()) && buffer == "" && good == old(good)
      ensures ok == sinkGood
      ensures chunks == if old(buffer) == "" then old(chunks) else old(chunks) + [old(buffer)]
      ensures sinkGood ==> old(sinkGood)
      ensures sinkGood && old(buffer) != "" ==> sink.fd == sink.Stream()
      ensures NeverFails(old(sink.script)) ==> sinkGood == old(sinkGood) && NeverFails(sink.script)
    {
      hide EncodeChunk, EncodeChunks, Concat, NeverFails;
      var s := buffer;
      ghost var encoded := EncodeChunks(chunks);
      if s != "" {
        totalWritten := totalWritten + |s|;
        buffer := "";
        ConcatSnoc(chunks, s);
        EncodeSnoc(chunks, s);
        chunks := chunks + [s];
        Associative(start, encoded, EncodeChunk(s));
        Send(EncodeChunk(s));
        assert Payload() == old(Payload());
        assert start + encoded <= start + encoded + EncodeChunk(s);
      }
      ok := sinkGood;
    }

    /** ostream::flush on the chunk stream. */
    method Flush() returns (ok: bool)
      requires Valid()
      modifies this, sink, sink.outbuf
      ensures Valid() && Payload() == old(Payload())
      ensures ok == good
      ensures good <==> old(good) && sinkGood
      ensures old(good) && old(sinkGood) && NeverFails(old(sink.script)) ==> good
      ensures NeverFails(old(sink.script)) ==> NeverFails(sink.script)
    {
      if good {
        good := SyncChunk();
      }
      ok := good;
    }

    /**
     * The destructor: flushes the rest and terminates the body. If no write
     * failed, the descriptor now carries a body from which a client decodes
     * exactly the inserted bytes; otherwise one it does not decode.
     */
    method Close()
      requires Valid()
      modifies this, sink, sink.outbuf
      ensures sink.Valid()
      ensures old(Payload()) == Payload()
      ensures sinkGood ==> old(sinkGood) && start <= sink.fd == sink.Stream()
      ensures start <= sink.fd ==>
        Dechunk(sink.fd[|start|..]) == if sinkGood then Some(Payload()) else None
      ensures !usable ==> sink.fd <= start
      ensures old(sinkGood) && NeverFails(old(sink.script)) ==> sinkGood
    {
      var ok := SyncChunk();
      Send(LAST_CHUNK);
      assert Payload() == Concat(chunks);
      if sinkGood {
        BodyDecodes(start, chunks, sink.fd);
      } else if start <= sink.fd {
        assert sink.fd <= sink.Stream();
        CutBodyFails(start, chunks, sink.fd);
      }
    }
  }
}
