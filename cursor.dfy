/**
 * An in-memory write cursor, standing for `std::io::Cursor<Vec<u8>>` over text.
 * Positions count characters here, where the vector's count UTF-8 bytes.
 * A write lands at the current position: it overwrites what is there, extends
 * the text past its end and moves the position behind the written text.
 */
module Cursors {

  datatype Cursor = Cursor(data: string, pos: nat) {

    /** The position is at the end of the text, so the next write appends. */
    predicate AtEnd() {
      pos == |data|
    }

    /** Writes `buf` at the position. A position beyond the end is first padded with NULs, as a `Vec` cursor does. */
    function Write(buf: string): (c: Cursor)
      ensures c.pos == pos + |buf|
      ensures |c.data| == if pos + |buf| <= |data| then |data| else pos + |buf|
      ensures c.data[pos..pos + |buf|] == buf
      ensures pos <= |data| ==> c.data[..pos] == data[..pos]
      ensures c.data[pos + |buf|..] == if pos + |buf| <= |data| then data[pos + |buf|..] else []
    {
      var head := if pos <= |data| then data[..pos] else data + seq(pos - |data|, _ => '\0');
      var tail := if pos + |buf| <= |data| then data[pos + |buf|..] else [];
      Cursor(head + buf + tail, pos + |buf|)
    }
  }

  /** A fresh cursor over an empty vector. */
  const Empty := Cursor([], 0)

  /** A cursor at the end of its text appends: writing there is concatenation. */
  lemma WriteAtEndAppends(c: Cursor, buf: string)
    requires c.AtEnd()
    ensures c.Write(buf) == Cursor(c.data + buf, |c.data + buf|)
    ensures c.Write(buf).AtEnd()
  {
  }

  /**
   * A cursor moved back to the start overwrites what is queued: writing `buf`
   * there replaces the first `|buf|` characters and keeps the rest.
   */
  lemma WriteAtStartOverwrites(data: string, buf: string)
    requires |buf| <= |data|
    ensures Cursor(data, 0).Write(buf).data == buf + data[|buf|..]
    ensures |buf| > 0 && data[..|buf|] != buf ==> Cursor(data, 0).Write(buf).data[..|data|] != data
  {
    var c := Cursor(data, 0).Write(buf);
    if |buf| > 0 && data[..|buf|] != buf {
      assert c.data[..|buf|] == buf;
      assert c.data[..|data|][..|buf|] == buf;
    }
  }
}
