/** The plugin's one writer: every line a plugin sends goes through its queue, in order. */
module Runtime {
  /** A `plugin/degraded` notification. */
  datatype Notice = Notice(key: string, message: string, active: bool)

  datatype Wire =
    | Ack(sub: nat)
    | Note(sub: nat, body: string)
    | Degraded(notice: Notice)
    | Reply(text: string)

  /** A handle onto the writer task. Once the host is gone, nothing more is queued. */
  class Writer {
    var lines: seq<Wire>
    var open: bool

    constructor ()
      ensures lines == [] && open
    {
      lines, open := [], true;
    }

    method SendLine(line: Wire) returns (ok: bool)
      modifies this
      ensures open == old(open) && ok == open
      ensures lines == if ok then old(lines) + [line] else old(lines)
    {
      ok := open;
      if ok {
        lines := lines + [line];
      }
    }

    /** The receiving end is dropped: stdout closed. */
    method HostGone()
      modifies this
      ensures !open && lines == old(lines)
    {
      open := false;
    }
  }
}
