/**
 * The output half of the socket stream buffer (basic/fdbuf.cpp).
 *
 * The descriptor is modelled by the bytes it has accepted and by a finite
 * script of what the next write calls do: accept some bytes, be interrupted,
 * or fail. Past the end of the script every write accepts all it is given, so
 * short, empty and interrupted writes happen any finite number of times.
 */
module FdBuffer {

  const BUFFER_SIZE: nat := 4096

  datatype WriteResult = Wrote(count: nat) | Interrupted | Failed

  predicate NeverFails(script: seq<WriteResult>) {
    forall i :: 0 <= i < |script| ==> !script[i].Failed?
  }

  /** What a caller of the stream does. */
  datatype Op = Put(c: char) | Sync

  function PutBytes(ops: seq<Op>): string {
    if ops == [] then "" else (if ops[0].Put? then [ops[0].c] else "") + PutBytes(ops[1..])
  }

  lemma {:induction false} PutBytesSnoc(ops: seq<Op>, op: Op)
    ensures PutBytes(ops + [op]) == PutBytes(ops) + (if op.Put? then [op.c] else "")
  {
    if ops == [] {
      assert ops + [op] == [op];
    } else {
      PutBytesSnoc(ops[1..], op);
      assert (ops + [op])[1..] == ops[1..] + [op];
    }
  }

  /** The next part of a buffer continues what was written of it. */
  lemma NextPart(before: string, all: string, buffer: string, p: nat, written: nat)
    requires all <= buffer && p + written <= |all|
    ensures before + all[..p] + buffer[p..p + written] == before + all[..p + written]
  {
    assert buffer[p..p + written] == all[p..p + written];
    assert all[..p] + all[p..p + written] == all[..p + written];
  }

  class FdBuf {
    const outbuf: array<char>
    var pptr: nat              // put pointer, relative to the start of outbuf
    var totalWritten: nat
    var fd: string             // the bytes the descriptor has accepted
    var script: seq<WriteResult>

    ghost predicate Valid()
      reads this
    {
      && outbuf.Length == 4096
      && pptr < 4096           // the last slot is reserved for overflow
      && totalWritten == |fd|
    }

    /** All bytes that are on their way: accepted ones and those still buffered. */
    ghost function Stream(): string
      requires Valid()
      reads this, outbuf
    {
      fd + outbuf[..pptr]
    }

    constructor (script: seq<WriteResult>)
      ensures Valid() && Stream() == "" && fd == "" && this.script == script && fresh(outbuf)
    {
      outbuf := new char[BUFFER_SIZE];
      pptr, totalWritten, fd, this.script := 0, 0, "", script;
    }

    /**
     * Hands the buffered bytes to the descriptor. On success all of them are
     * out, in order; on failure a proper prefix is out and the rest is dropped.
     */
    method SyncBuffer() returns (ok: bool)
      requires outbuf.Length == BUFFER_SIZE && pptr <= BUFFER_SIZE && totalWritten == |fd|
      modifies this
      ensures Valid() && pptr == 0
      ensures ok ==> fd == old(fd + outbuf[..pptr])
      ensures !ok ==> old(fd) <= fd < old(fd + outbuf[..pptr])
      ensures NeverFails(old(script)) ==> ok && NeverFails(script)
    {
      var n := pptr;
      pptr := 0;
      var p := 0;
      ghost var all := outbuf[..n];
      while n > 0
        invariant pptr == 0 && p + n == |all| <= BUFFER_SIZE
        invariant all <= outbuf[..]
        invariant fd == old(fd) + all[..p] && totalWritten == |fd|
        invariant NeverFails(old(script)) ==> NeverFails(script)
        decreases |script|, n
      {
        var result := if script == [] then Wrote(n) else script[0];
        script := if script == [] then [] else script[1..];
        match result {
          case Failed => return false;
          case Interrupted =>
          case Wrote(count) =>
            var written := if count < n then count else n;
            NextPart(old(fd), all, outbuf[..], p, written);
            assert outbuf[..][p..p + written] == outbuf[p..p + written];
            fd := fd + outbuf[p..p + written];
            n, p, totalWritten := n - written, p + written, totalWritten + written;
        }
      }
      ok := true;
    }

    /** overflow: the byte goes to the reserved slot, then everything is written out. */
    method Overflow(c: char) returns (ok: bool)
      requires Valid() && pptr == BUFFER_SIZE - 1
      modifies this, outbuf
      ensures Valid()
      ensures ok ==> Stream() == old(Stream()) + [c]
      ensures !ok ==> old(fd) <= Stream() == fd < old(Stream()) + [c]
      ensures NeverFails(old(script)) ==> ok && NeverFails(script)
    {
      outbuf[pptr] := c;
      pptr := pptr + 1;
      assert fd + outbuf[..pptr] == old(Stream()) + [c];
      ok := SyncBuffer();
    }

    /** One byte through the put area, as every insertion on the stream does it. */
    method PutByte(c: char) returns (ok: bool)
      requires Valid()
      modifies this, outbuf
      ensures Valid()
      ensures ok ==> Stream() == old(Stream()) + [c]
      ensures !ok ==> old(fd) <= Stream() == fd < old(Stream()) + [c]
      ensures NeverFails(old(script)) ==> ok && NeverFails(script)
    {
      if pptr < BUFFER_SIZE - 1 {
        outbuf[pptr] := c;
        pptr := pptr + 1;
        assert fd + outbuf[..pptr] == old(Stream()) + [c];
        ok := true;
      } else {
        ok := Overflow(c);
      }
    }

    method PutAll(s: string) returns (ok: bool)
      requires Valid()
      modifies this, outbuf
      ensures Valid()
      ensures ok ==> Stream() == old(Stream()) + s
      ensures !ok ==> fd == Stream() < old(Stream()) + s
      ensures NeverFails(old(script)) ==> ok && NeverFails(script)
    {
      for i := 0 to |s|
        invariant Valid()
        invariant Stream() == old(Stream()) + s[..i]
        invariant NeverFails(old(script)) ==> NeverFails(script)
      {
        ok := PutByte(s[i]);
        assert s[..i] + [s[i]] == s[..i + 1] <= s;
        if !ok {
          assert |Stream()| < |old(Stream())| + |s|;
          return;
        }
      }
      ok := true;
    }

    /** seekoff(0, cur, out): the logical put position. */
    method TellPut() returns (pos: nat)
      requires Valid()
      ensures pos == |Stream()|
    {
      pos := totalWritten + pptr;
    }

    /**
     * Every sequence of puts and syncs, against every script: until a sync
     * fails nothing is lost, duplicated or reordered; after a failure the
     * descriptor still holds a prefix of what was put.
     */
    method Perform(ops: seq<Op>) returns (ok: bool, done: nat)
      requires Valid()
      modifies this, outbuf
      ensures Valid() && done <= |ops|
      ensures ok ==> done == |ops| && Stream() == old(Stream()) + PutBytes(ops)
      ensures !ok ==> fd == Stream() <= old(Stream()) + PutBytes(ops[..done])
      ensures NeverFails(old(script)) ==> ok
    {
      done := 0;
      while done < |ops|
        invariant done <= |ops| && Valid()
        invariant Stream() == old(Stream()) + PutBytes(ops[..done])
        invariant NeverFails(old(script)) ==> NeverFails(script)
      {
        ghost var before := Stream();
        assert ops[..done + 1] == ops[..done] + [ops[done]];
        PutBytesSnoc(ops[..done], ops[done]);
        match ops[done] {
          case Put(c) => ok := PutByte(c);
          case Sync => ok := SyncBuffer();
        }
        done := done + 1;
        if !ok { return; }
      }
      assert ops[..done] == ops;
      ok := true;
    }
  }
}
