/**
 * A TCP connection as the handshake code sees it: the bytes the peer will
 * send (a script), a read cursor into them, the bytes written so far, how
 * many more writes the peer accepts, and whether the connection has been
 * closed. A write either goes through whole or fails and writes nothing.
 * A bufio.Reader over a connection is a separate object with its own
 * buffer, read ahead of its user.
 */
module Net {
  import opened Wire

  /** Length of the first line of `s`, its '\n' included, if `s` holds one. */
  function LineLength(s: seq<byte>): (r: Option<nat>)
    ensures r.Some? ==> 0 < r.value <= |s| && s[r.value - 1] == '\n' as int && '\n' as int !in s[..r.value - 1]
    ensures r.None? <==> '\n' as int !in s
    decreases |s|
  {
    if s == [] then None
    else if s[0] == '\n' as int then Some(1)
    else
      match LineLength(s[1..])
      case None =>
        assert s == [s[0]] + s[1..];
        None
      case Some(k) =>
        assert s[..k + 1] == [s[0]] + s[1..][..k];
        Some(k + 1)
  }

  /** The smaller of two integers. */
  function Min(a: int, b: int): (m: int)
    ensures m <= a && m <= b && (m == a || m == b)
  {
    if a <= b then a else b
  }

  class Conn {
    /** Every byte the peer sends, in order. */
    var input: seq<byte>
    /** How many of them have been consumed. */
    var pos: nat
    /** Every byte written to the peer, in order; it only grows. */
    var output: seq<byte>
    /** How many more writes the peer accepts; every write after those
        fails, as on a connection the peer has reset. */
    var writesLeft: nat
    var closed: bool

    ghost predicate Valid()
      reads this
    {
      pos <= |input|
    }

    /** The bytes not read yet. */
    function Remaining(): seq<byte>
      reads this
      requires Valid()
    {
      input[pos..]
    }

    constructor (script: seq<byte>, acceptedWrites: nat)
      ensures Valid()
      ensures input == script && pos == 0 && output == [] && writesLeft == acceptedWrites && !closed
    {
      input, pos, output := script, 0, [];
      writesLeft, closed := acceptedWrites, false;
    }

    /** net.Conn.Read into a buffer of n bytes. Everything the peer sends
        is taken to have arrived already, so a read returns as many bytes
        as fit, or end of stream when none are left. */
    method Read(n: nat) returns (ok: bool, data: seq<byte>)
      requires Valid()
      modifies this`pos
      ensures Valid()
      ensures ok <==> n == 0 || old(pos) < |input|
      ensures pos == Min(|input|, old(pos) + n) && data == input[old(pos)..pos]
    {
      var k := Min(|input| - pos, n);
      ok := n == 0 || k > 0;
      data := input[pos..pos + k];
      pos := pos + k;
    }

    /** bufio.Reader.ReadByte: one byte, or an error at end of stream. */
    method ReadByte() returns (ok: bool, b: byte)
      requires Valid()
      modifies this`pos
      ensures Valid()
      ensures ok <==> old(pos) < |input|
      ensures ok ==> b == input[old(pos)] && pos == old(pos) + 1
      ensures !ok ==> pos == old(pos)
    {
      if pos < |input| {
        ok, b := true, input[pos];
        pos := pos + 1;
      } else {
        ok, b := false, 0;
      }
    }

    /** io.ReadFull of n bytes: exactly n bytes, or an error after whatever
        was left has been consumed. */
    method ReadFull(n: nat) returns (ok: bool, data: seq<byte>)
      requires Valid()
      modifies this`pos
      ensures Valid()
      ensures ok <==> old(pos) + n <= |input|
      ensures ok ==> data == input[old(pos)..old(pos) + n] && pos == old(pos) + n
      ensures !ok ==> pos == |input|
    {
      if pos + n <= |input| {
        ok, data := true, input[pos..pos + n];
        pos := pos + n;
      } else {
        ok, data := false, input[pos..];
        pos := |input|;
      }
    }

    /** net.Conn.Write: all of `data` while the peer accepts writes, and
        nothing once it does not. */
    method Write(data: seq<byte>) returns (ok: bool)
      modifies this`output, this`writesLeft
      ensures ok <==> old(writesLeft) > 0
      ensures output == if ok then old(output) + data else old(output)
      ensures writesLeft == if ok then old(writesLeft) - 1 else old(writesLeft)
    {
      ok := writesLeft > 0;
      if ok {
        output := output + data;
        writesLeft := writesLeft - 1;
      }
    }

    method Close()
      modifies this`closed
      ensures closed
    {
      closed := true;
    }
  }

  /** The size of the buffer of bufio.NewReader. */
  const BufferSize: nat := 4096

  /** bufio.Reader over a connection: it reads from the connection a whole
      buffer's worth at a time and hands the bytes out from its buffer, so
      the connection's own cursor runs ahead of what the reader's user has
      consumed. */
  class Reader {
    const conn: Conn
    /** Bytes taken from the connection and not handed out yet. */
    var buf: seq<byte>
    /** Where the connection's cursor stood when the reader was made. */
    ghost const origin: nat

    ghost predicate Valid()
      reads this, conn
    {
      && conn.Valid()
      && |buf| <= BufferSize
      && origin + |buf| <= conn.pos
      && buf == conn.input[conn.pos - |buf|..conn.pos]
      // once the reader has read at all, its first read took everything
      // the peer had sent, up to a whole buffer
      && (conn.pos == origin || Min(|conn.input|, origin + BufferSize) <= conn.pos)
    }

    /** How far the reader's user has read into the connection's stream. */
    function Position(): nat
      reads this, conn
      requires Valid()
    {
      conn.pos - |buf|
    }

    /** The bytes the reader's user has not read yet. */
    function Remaining(): seq<byte>
      reads this, conn
      requires Valid()
    {
      conn.input[Position()..]
    }

    /** bufio.NewReader(c). */
    constructor (c: Conn)
      requires c.Valid()
      ensures Valid() && conn == c && buf == [] && origin == c.pos
    {
      conn, buf, origin := c, [], c.pos;
    }

    /** bufio's fill: one Read from the connection into the free part of
        the buffer; false at end of stream. */
    method Fill() returns (ok: bool)
      requires Valid() && |buf| < BufferSize
      modifies this`buf, conn`pos
      ensures Valid() && Position() == old(Position()) && Remaining() == old(Remaining())
      ensures ok <==> old(conn.pos) < |conn.input|
      ensures ok ==> old(conn.pos) < conn.pos
      ensures !ok ==> conn.pos == |conn.input|
      ensures conn.pos == Min(|conn.input|, old(conn.pos) + BufferSize - old(|buf|))
    {
      var chunk;
      ok, chunk := conn.Read(BufferSize - |buf|);
      buf := buf + chunk;
    }

    /** Hands out the first k buffered bytes. */
    method Take(k: nat) returns (data: seq<byte>)
      requires Valid() && k <= |buf|
      modifies this`buf
      ensures Valid() && data == old(buf[..k]) && buf == old(buf[k..])
      ensures Position() == old(Position()) + k
      ensures old(Remaining()) == data + Remaining()
    {
      data, buf := buf[..k], buf[k..];
    }

    /** One round of ReadString's loop: the buffered bytes through the
        first '\n' when there is one; otherwise a full buffer handed over
        as a fragment of the line; otherwise one fill, and at end of stream
        whatever is left. */
    method ReadLineStep() returns (found: bool, done: bool, part: seq<byte>)
      requires Valid()
      modifies this`buf, conn`pos
      ensures Valid() && old(conn.pos) <= conn.pos
      ensures old(Remaining()) == part + Remaining()
      ensures Position() == old(Position()) + |part|
      ensures found ==> done && LineLength(part).Some? && LineLength(part).value == |part|
      ensures !found ==> '\n' as int !in part
      ensures done && !found ==> Remaining() == []
      ensures !done ==> old(conn.pos) < conn.pos || (conn.pos == old(conn.pos) && |buf| < old(|buf|))
    {
      var k := LineLength(buf);
      if k.Some? {
        part := Take(k.value);
        assert part == old(buf)[..k.value];
        found, done := true, true;
      } else if |buf| == BufferSize {
        part := Take(|buf|);
        found, done := false, false;
      } else {
        var filled := Fill();
        found, done, part := false, !filled, [];
        if !filled {
          part := Take(|buf|);
        }
      }
    }

    /** ReadString('\n'): the bytes up to and including the next '\n', or
        an error (with everything left consumed) when the stream ends first.
        A buffer full of bytes without a '\n' is handed over as a fragment
        of the line and refilled. */
    method ReadLine() returns (ok: bool, line: seq<byte>)
      requires Valid()
      modifies this`buf, conn`pos
      ensures Valid()
      ensures ok <==> LineLength(old(Remaining())).Some?
      ensures ok ==> line == old(Remaining())[..LineLength(old(Remaining())).value]
      ensures ok ==> Position() == old(Position()) + |line|
      ensures !ok ==> Position() == |conn.input|
      ensures old(conn.pos) <= conn.pos
    {
      ghost var s := Remaining();
      line, ok := [], false;
      var done := false;
      while !done
        invariant Valid() && old(conn.pos) <= conn.pos
        invariant s == line + Remaining()
        invariant Position() == old(Position()) + |line|
        invariant !ok ==> '\n' as int !in line
        invariant done && !ok ==> Remaining() == []
        invariant ok ==> done && |line| > 0 && line[|line| - 1] == '\n' as int && '\n' as int !in line[..|line| - 1]
        decreases if done then 0 else 1, |conn.input| - conn.pos, |buf|
      {
        ghost var fragment, rest := line, Remaining();
        var part;
        ok, done, part := ReadLineStep();
        line := line + part;
        JoinFragment(s, fragment, rest, part, Remaining());
      }
      if ok {
        assert s[..|line|] == line;
        assert s[..|line| - 1] == line[..|line| - 1];
        LineLengthAt(s, |line| - 1);
      }
    }
  }

  /** Appending a fragment keeps a split of the stream, and a fragment
      ending the line ends it at its '\n'. */
  lemma JoinFragment(s: seq<byte>, fragment: seq<byte>, rest: seq<byte>, part: seq<byte>, rest': seq<byte>)
    requires s == fragment + rest && rest == part + rest' && '\n' as int !in fragment
    ensures s == fragment + part + rest'
    ensures LineLength(part).Some? && LineLength(part).value == |part| ==>
      var line := fragment + part;
      |line| > 0 && line[|line| - 1] == '\n' as int && '\n' as int !in line[..|line| - 1]
  {
    var line := fragment + part;
    if LineLength(part).Some? && LineLength(part).value == |part| {
      assert line[..|line| - 1] == fragment + part[..|part| - 1];
    }
  }

  /** The first '\n' of `s` found at index k fixes the first line's length. */
  lemma {:induction false} LineLengthAt(s: seq<byte>, k: nat)
    requires k < |s| && s[k] == '\n' as int && '\n' as int !in s[..k]
    ensures LineLength(s).Some? && LineLength(s).value == k + 1
    decreases k
  {
    if k > 0 {
      assert s[0] in s[..k];
      assert s[1..][..k - 1] == s[1..k];
      assert forall x :: x in s[1..k] ==> x in s[..k];
      LineLengthAt(s[1..], k - 1);
    }
  }
}
