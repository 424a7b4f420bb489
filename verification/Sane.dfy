/**
 * The scanner backend as the job sees it (sanecpp/sanecpp.cpp and section 4.3
 * of the SANE Standard): a script of what each start and each read returns.
 */
module Sane {

  datatype Status =
    | Good | Unsupported | Cancelled | DeviceBusy | Inval | Eof
    | Jammed | NoDocs | CoverOpen | IoError | NoMem | AccessDenied

  /** What one sane_read call returns: a status, and bytes if it is Good. */
  datatype Fragment = Fragment(status: Status, data: string)

  /** The image bytes a frame delivers before its first failing read. */
  function Delivered(frame: seq<Fragment>): string {
    if frame == [] || !frame[0].status.Good? then "" else frame[0].data + Delivered(frame[1..])
  }

  /** The status of the first failing read; a frame that runs dry ends with Eof. */
  function Ending(frame: seq<Fragment>): (s: Status)
    ensures !s.Good?
  {
    if frame == [] then Eof else if !frame[0].status.Good? then frame[0].status else Ending(frame[1..])
  }

  /** What one sane_start call leads to; its frame matters only if it is Good. */
  datatype Sheet = Sheet(start: Status, frame: seq<Fragment>)

  class Session {
    var sheets: seq<Sheet>     // the start calls to come; NoDocs when exhausted
    var frame: seq<Fragment>   // the read calls to come in the current frame

    constructor (sheets: seq<Sheet>)
      ensures this.sheets == sheets && frame == []
    {
      this.sheets, frame := sheets, [];
    }

    method Start() returns (status: Status)
      modifies this
      ensures old(sheets) == [] ==> status == NoDocs && sheets == [] && frame == []
      ensures old(sheets) != [] ==>
        status == old(sheets)[0].start && sheets == old(sheets)[1..] && frame == old(sheets)[0].frame
    {
      if sheets == [] {
        status, frame := NoDocs, [];
      } else {
        status, frame, sheets := sheets[0].start, sheets[0].frame, sheets[1..];
      }
    }

    /** sane_read: at most `max` bytes, the rest stays for the next call; a failing read ends the frame. */
    method ReadSome(max: nat) returns (status: Status, data: string)
      requires max > 0
      modifies this`frame
      ensures status.Good? ==>
        && |data| <= max && data + Delivered(frame) == Delivered(old(frame))
        && Ending(frame) == Ending(old(frame))
        && (|frame| < |old(frame)| || (|data| == max && |frame| == |old(frame)|))
      ensures !status.Good? ==>
        data == "" && Delivered(old(frame)) == "" && status == Ending(old(frame)) && frame == []
    {
      if frame == [] {
        return Eof, "";
      }
      var next := frame[0];
      if !next.status.Good? {
        frame := [];
        return next.status, "";
      }
      status := Good;
      if |next.data| <= max {
        data, frame := next.data, frame[1..];
      } else {
        data := next.data[..max];
        frame := [Fragment(Good, next.data[max..])] + frame[1..];
        assert frame[1..] == old(frame)[1..];
        assert next.data == data + next.data[max..];
      }
    }

    /**
     * session::read: Good exactly when enough bytes are left to fill the whole
     * buffer, whatever the sizes in which the backend hands them out.
     */
    method Read(buffer: array<char>) returns (status: Status)
      modifies this`frame, buffer
      ensures status.Good? <==> |Delivered(old(frame))| >= buffer.Length
      ensures status.Good? ==>
        && buffer[..] + Delivered(frame) == Delivered(old(frame))
        && Ending(frame) == Ending(old(frame))
      ensures !status.Good? ==> status == Ending(old(frame)) && frame == []
    {
      hide Delivered, Ending;
      status := Good;
      var total: nat := 0;
      while status.Good? && total < buffer.Length
        invariant total <= buffer.Length
        invariant status.Good? ==> buffer[..total] + Delivered(frame) == Delivered(old(frame))
        invariant status.Good? ==> Ending(frame) == Ending(old(frame))
        invariant !status.Good? ==>
          status == Ending(old(frame)) && |Delivered(old(frame))| < buffer.Length && frame == []
        decreases status.Good?, |frame|, buffer.Length - total
      {
        var data;
        ghost var filled := buffer[..total];
        status, data := ReadSome(buffer.Length - total);
        Fill(buffer, total, data);
        assert buffer[..total + |data|] == filled + data;
        total := total + |data|;
      }
      assert buffer[..buffer.Length] == buffer[..];
    }

    static method Fill(buffer: array<char>, from: nat, data: string)
      requires from + |data| <= buffer.Length
      modifies buffer
      ensures buffer[..from + |data|] == old(buffer[..from]) + data
    {
      forall i | 0 <= i < |data| {
        buffer[from + i] := data[i];
      }
    }
  }
}
