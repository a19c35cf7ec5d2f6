/**
 * The write path of a non-blocking socket stream that spills what the socket
 * will not take into a disk-backed FIFO (an overflow file with an independent
 * read cursor) and drains it on writable readiness; the `host:port` split of
 * the peer address; `receive` and `readContinuously`.
 *
 * The OS is reduced to inputs: what one non-blocking socket write reports
 * (`SendResult`), the send low-water mark, what `socket_recv` and successive
 * reads return. The socket itself is the ghost sequence of the bytes it took.
 */
module SocketStreams {
  import opened Common

  /** The two ConnectionException codes this stream raises. */
  datatype ConnectionError = ReadFail | WriteFail

  /** What one non-blocking write on the socket reports: the count it took, or a thrown ConnectionException. */
  datatype SendResult = Sent(count: nat) | SendFailed

  /** What `write` hands back: the length written at once, a caller left waiting on the overflow, or an error. */
  datatype WriteOutcome = Written(length: nat) | Queued | WriteError(error: ConnectionError)

  /** What `socket_recv` reports: the bytes placed in the target, or `false`. */
  datatype RecvResult = Received(data: seq<byte>) | RecvFailed

  /** What one `read($length)` call gives: the bytes read, or a thrown ConnectionException. */
  datatype ReadResult = Read(bytes: seq<byte>) | ReadThrew

  /**
   * The overflow file: every byte appended through the write handle, the read
   * handle's offset, and the read handle's end-of-file flag. A read that comes
   * back short sets the flag and, as on any PHP stream, later appends through
   * the other handle do not clear it.
   */
  datatype Overflow = Overflow(data: seq<byte>, readPos: nat, eof: bool)

  /** What one firing of the drain callback does: remove the file, or send the chunk it read and move the read handle on. */
  datatype DrainAction = TearDown | SendChunk(chunk: seq<byte>, next: Overflow)

  // ---------------------------------------------------------------------------
  // PHP string helpers
  // ---------------------------------------------------------------------------

  /** PHP truthiness of a string: only "" and "0" are falsy. */
  predicate Truthy(s: string) {
    s != "" && s != "0"
  }

  /** PHP truthiness of a byte string read from a stream ("0" is the single byte 48). */
  predicate FalsyBytes(b: seq<byte>) {
    b == [] || b == [48 as byte]
  }

  /** Concatenation of a sequence of byte strings, first to last. */
  function Concat(chunks: seq<seq<byte>>): seq<byte> {
    if chunks == [] then [] else chunks[0] + Concat(chunks[1..])
  }

  /** `explode(':', s)`: the fields of `s` between colons, at least one. */
  function Explode(s: string): (parts: seq<string>)
    ensures |parts| >= 1
  {
    if s == [] then [[]]
    else
      var rest := Explode(s[1..]);
      if s[0] == ':' then [[]] + rest else [[s[0]] + rest[0]] + rest[1..]
  }

  /** `implode(':', parts)`, the inverse of Explode. */
  function Join(parts: seq<string>): string
    requires |parts| >= 1
  {
    if |parts| == 1 then parts[0] else parts[0] + ":" + Join(parts[1..])
  }

  /** Explode loses nothing and leaves no colon in a field. */
  lemma {:induction false} JoinExplode(s: string)
    ensures Join(Explode(s)) == s
    ensures forall k :: 0 <= k < |Explode(s)| ==> ':' !in Explode(s)[k]
  {
    if s != [] {
      var rest := Explode(s[1..]);
      JoinExplode(s[1..]);
      if s[0] == ':' {
        assert Explode(s) == [[]] + rest;
        assert Explode(s)[1..] == rest;
      } else {
        var parts := Explode(s);
        assert parts == [[s[0]] + rest[0]] + rest[1..];
        assert parts[1..] == rest[1..];
        if |rest| > 1 {
          assert Join(rest) == rest[0] + ":" + Join(rest[1..]);
          assert Join(parts) == [s[0]] + rest[0] + ":" + Join(rest[1..]);
        }
        assert s == [s[0]] + s[1..];
        forall k | 0 <= k < |parts|
          ensures ':' !in parts[k]
        {
          if k > 0 {
            assert parts[k] == rest[k];
          }
        }
      }
    }
  }

  /** Exploding a colon-free prefix extends the first field only. */
  lemma {:induction false} ExplodePrefix(a: string, b: string)
    requires ':' !in a
    ensures Explode(a + b) == [a + Explode(b)[0]] + Explode(b)[1..]
  {
    if a != [] {
      assert (a + b)[0] == a[0];
      assert (a + b)[1..] == a[1..] + b;
      ExplodePrefix(a[1..], b);
      assert [a[0]] + (a[1..] + Explode(b)[0]) == a + Explode(b)[0];
    } else {
      assert a + b == b;
      assert [] + Explode(b)[0] == Explode(b)[0];
      assert Explode(b) == [Explode(b)[0]] + Explode(b)[1..];
    }
  }

  /** Join then Explode gives back colon-free fields. */
  lemma {:induction false} ExplodeJoin(parts: seq<string>)
    requires |parts| >= 1
    requires forall k :: 0 <= k < |parts| ==> ':' !in parts[k]
    ensures Explode(Join(parts)) == parts
  {
    if |parts| == 1 {
      ExplodePrefix(parts[0], []);
      assert parts[0] + [] == parts[0];
    } else {
      var tail := Join(parts[1..]);
      ExplodeJoin(parts[1..]);
      assert Join(parts) == parts[0] + (":" + tail);
      ExplodePrefix(parts[0], ":" + tail);
      assert (":" + tail)[1..] == tail;
      assert Explode(":" + tail) == [[]] + Explode(tail);
      assert parts[0] + [] == parts[0];
    }
  }

  predicate IsDigit(c: char) {
    '0' <= c <= '9'
  }

  /** The leading whitespace PHP skips in a numeric string: space, \t, \n, \r, \v, \f. */
  predicate IsSpace(c: char) {
    c == ' ' || c == '\t' || c == '\n' || c == '\r' || c as int == 11 || c as int == 12
  }

  function SkipSpace(s: string): (r: string)
    ensures |r| <= |s| && r == s[|s| - |r|..]
  {
    if s != [] && IsSpace(s[0]) then SkipSpace(s[1..]) else s
  }

  function LeadingDigits(s: string): (d: string)
    ensures |d| <= |s| && d == s[..|d|]
    ensures forall i :: 0 <= i < |d| ==> IsDigit(d[i])
    ensures |d| < |s| ==> !IsDigit(s[|d|])
  {
    if s != [] && IsDigit(s[0]) then [s[0]] + LeadingDigits(s[1..]) else []
  }

  function DigitsValue(d: string): nat
    requires forall i :: 0 <= i < |d| ==> IsDigit(d[i])
  {
    if d == [] then 0
    else
      var last := d[|d| - 1];
      assert IsDigit(last);
      10 * DigitsValue(d[..|d| - 1]) + (last as int - '0' as int)
  }

  /** PHP `intval` of a string in base 10: optional leading whitespace, an optional sign, then the leading digits (0 when there are none). */
  function IntVal(s: string): int {
    var t := SkipSpace(s);
    if t != [] && t[0] == '-' then -(DigitsValue(LeadingDigits(t[1..])) as int)
    else if t != [] && t[0] == '+' then DigitsValue(LeadingDigits(t[1..]))
    else DigitsValue(LeadingDigits(t))
  }

  /** The decimal spelling of a natural number, without sign or leading zeros. */
  function Decimal(n: nat): (s: string)
    ensures s != [] && forall i :: 0 <= i < |s| ==> IsDigit(s[i])
  {
    (if n < 10 then [] else Decimal(n / 10)) + [('0' as int + n % 10) as char]
  }

  lemma {:induction false} DecimalValue(n: nat)
    ensures DigitsValue(Decimal(n)) == n
  {
    var s := Decimal(n);
    assert s[..|s| - 1] == (if n < 10 then [] else Decimal(n / 10));
    if n >= 10 {
      DecimalValue(n / 10);
    }
  }

  lemma {:induction false} LeadingDigitsAll(s: string)
    requires forall i :: 0 <= i < |s| ==> IsDigit(s[i])
    ensures LeadingDigits(s) == s
  {
    if s != [] {
      LeadingDigitsAll(s[1..]);
    }
  }

  /** intval reads back what Decimal spells. */
  lemma IntValDecimal(n: nat)
    ensures IntVal(Decimal(n)) == n
  {
    var s := Decimal(n);
    assert !IsSpace(s[0]);
    assert SkipSpace(s) == s;
    LeadingDigitsAll(s);
    DecimalValue(n);
  }

  // ---------------------------------------------------------------------------
  // Peer address
  // ---------------------------------------------------------------------------

  /** The address the constructor keeps: the given peer name unless it is falsy, else the socket's own peer name (`false` read as absent). */
  function PeerAddress(peerName: Option<string>, socketName: Option<string>): Option<string> {
    if peerName.Some? && Truthy(peerName.value) then peerName else socketName
  }

  /** Host and port, set only when the address is truthy: the first ':'-field, and intval of the second field or 0. */
  function Endpoint(address: Option<string>): Option<(string, int)> {
    if address.Some? && Truthy(address.value) then
      var parts := Explode(address.value);
      Some((parts[0], if |parts| > 1 then IntVal(parts[1]) else 0))
    else None
  }

  /** The host is the text before the first ':' (all of the address when there is none). */
  lemma EndpointHost(address: string)
    requires Truthy(address)
    ensures var e := Endpoint(Some(address));
      && e.Some?
      && ':' !in e.value.0
      && |e.value.0| <= |address|
      && e.value.0 == address[..|e.value.0|]
      && (|e.value.0| == |address| || address[|e.value.0|] == ':')
  {
    var parts := Explode(address);
    JoinExplode(address);
    if |parts| > 1 {
      assert Join(parts) == parts[0] + ":" + Join(parts[1..]);
      assert address[|parts[0]|] == (parts[0] + ":" + Join(parts[1..]))[|parts[0]|];
    }
  }

  /** `host:port` with a colon-free host and a decimal port splits back into that host and port. */
  lemma EndpointRoundTrip(host: string, port: nat)
    requires ':' !in host
    ensures Endpoint(Some(host + ":" + Decimal(port))) == Some((host, port))
  {
    var d := Decimal(port);
    assert ':' !in d by {
      forall i | 0 <= i < |d| ensures d[i] != ':' {
        assert IsDigit(d[i]);
      }
    }
    assert Join([host, d]) == host + ":" + d;
    ExplodeJoin([host, d]);
    assert (host + ":" + d)[|host|] == ':';
    IntValDecimal(port);
  }

  /** An address without a colon is all host, and the port defaults to 0. */
  lemma EndpointWithoutPort(host: string)
    requires ':' !in host && Truthy(host)
    ensures Endpoint(Some(host)) == Some((host, 0))
  {
    ExplodeJoin([host]);
  }

  // ---------------------------------------------------------------------------
  // Reading
  // ---------------------------------------------------------------------------

  /** `receive`: the count and bytes socket_recv delivered, or CONNECTION_READ_FAIL when it returned false. */
  function Receive(recv: RecvResult): Result<(nat, seq<byte>), ConnectionError> {
    match recv
    case RecvFailed => Err(ReadFail)
    case Received(data) => Ok((|data|, data))
  }

  /** Whether `readContinuously`'s loop stops at this read: it threw, or it returned a falsy string. */
  predicate StopsLoop(r: ReadResult) {
    r.ReadThrew? || FalsyBytes(r.bytes)
  }

  /** The concatenation of the bytes of successful reads, first to last. */
  function Collected(results: seq<ReadResult>): seq<byte> {
    if results == [] then []
    else
      var last := results[|results| - 1];
      Collected(results[..|results| - 1]) + (if last.Read? then last.bytes else [])
  }

  /**
   * `readContinuously`: `results` are what successive `read(length)` calls
   * give; the loop stops at the first falsy string or thrown exception. A
   * thrown exception propagates and the content gathered so far is lost.
   * Returns the content (None when a read threw) and how many reads were made.
   */
  method ReadContinuously(results: seq<ReadResult>) returns (content: Option<seq<byte>>, calls: nat)
    requires exists i :: 0 <= i < |results| && StopsLoop(results[i])
    ensures 1 <= calls <= |results| && StopsLoop(results[calls - 1])
    ensures forall j :: 0 <= j < calls - 1 ==> !StopsLoop(results[j])
    ensures content.None? <==> results[calls - 1].ReadThrew?
    ensures content.Some? ==> content.value == Collected(results[..calls - 1])
  {
    var acc: seq<byte> := [];
    var i := 0;
    while !StopsLoop(results[i])
      invariant 0 <= i < |results|
      invariant exists k :: i <= k < |results| && StopsLoop(results[k])
      invariant forall j :: 0 <= j < i ==> !StopsLoop(results[j])
      invariant acc == Collected(results[..i])
      decreases |results| - i
    {
      assert results[..i + 1][..i] == results[..i];
      acc := acc + results[i].bytes;
      i := i + 1;
    }
    calls := i + 1;
    if results[i].ReadThrew? {
      content := None;
    } else {
      content := Some(acc);
    }
  }

  // ---------------------------------------------------------------------------
  // Draining the overflow file
  // ---------------------------------------------------------------------------

  /** What one drain tick reads from the overflow file: the next unread bytes, at most `lowat` of them. */
  function NextChunk(o: Overflow, lowat: nat): (chunk: seq<byte>)
    requires o.readPos <= |o.data|
    ensures |chunk| <= lowat
    ensures o.readPos + |chunk| <= |o.data| && chunk == o.data[o.readPos..o.readPos + |chunk|]
    ensures |chunk| == lowat || o.readPos + |chunk| == |o.data|
  {
    o.data[o.readPos..if o.readPos + lowat <= |o.data| then o.readPos + lowat else |o.data|]
  }

  /** Read up to `lowat` bytes and send them; a short read sets the end-of-file flag. */
  function ReadNext(o: Overflow, lowat: nat): DrainAction
    requires o.readPos <= |o.data|
  {
    var c := NextChunk(o, lowat);
    SendChunk(c, o.(readPos := o.readPos + |c|, eof := |c| < lowat))
  }

  /** The drain callback as written: the end-of-file flag alone decides the teardown. */
  function DrainStep(o: Overflow, lowat: nat): DrainAction
    requires o.readPos <= |o.data|
  {
    if o.eof then TearDown else ReadNext(o, lowat)
  }

  /** The drain step with the teardown also requiring that nothing is left unread. */
  function FixedDrainStep(o: Overflow, lowat: nat): DrainAction
    requires o.readPos <= |o.data|
  {
    if o.eof && o.readPos == |o.data| then TearDown else ReadNext(o, lowat)
  }

  /**
   * The drain as written drops bytes: a short read of the two buffered bytes
   * sets the flag, a caller then appends one byte, and the next firing removes
   * the file with that byte unread. The corrected step sends it instead. With
   * a low-water mark of 1 the same happens after the empty read that follows
   * a full read of the last byte.
   */
  lemma LatchedEofDropsAppend()
    ensures var o := Overflow([1, 2], 0, false);
      var first := DrainStep(o, 4);
      && first == SendChunk([1, 2], Overflow([1, 2], 2, true))
      && var grown := first.next.(data := first.next.data + [7]);
         && DrainStep(grown, 4) == TearDown
         && grown.data[grown.readPos..] == [7]
         && FixedDrainStep(grown, 4) == SendChunk([7], Overflow([1, 2, 7], 3, true))
    ensures var o := Overflow([1], 0, false);
      var first := DrainStep(o, 1);
      && first == SendChunk([1], Overflow([1], 1, false))
      && var second := DrainStep(first.next, 1);
         && second == SendChunk([], Overflow([1], 1, true))
         && var grown := second.next.(data := second.next.data + [7]);
            && DrainStep(grown, 1) == TearDown
            && grown.data[grown.readPos..] == [7]
  {
    var o := Overflow([1, 2], 0, false);
    assert NextChunk(o, 4) == [1, 2];
    var grown := Overflow([1, 2, 7], 2, true);
    assert NextChunk(grown, 4) == [7];
    var single := Overflow([1], 0, false);
    assert NextChunk(single, 1) == [1];
    assert NextChunk(single.(readPos := 1), 1) == [];
  }

  /**
   * The corrected step never drops a byte: it removes the file only when
   * nothing is unread, and a chunk it sends is followed in the file by
   * exactly the remaining unread bytes, whatever was appended before.
   */
  lemma FixedDrainStepKeepsOrder(o: Overflow, lowat: nat)
    requires o.readPos <= |o.data|
    ensures FixedDrainStep(o, lowat).TearDown? ==> o.data[o.readPos..] == []
    ensures FixedDrainStep(o, lowat).SendChunk? ==>
      var a := FixedDrainStep(o, lowat);
      && a.next.data == o.data && a.next.readPos <= |a.next.data| && |a.chunk| <= lowat
      && a.chunk + a.next.data[a.next.readPos..] == o.data[o.readPos..]
  {
    if !(o.eof && o.readPos == |o.data|) {
      var c := NextChunk(o, lowat);
      assert o.data[o.readPos..] == c + o.data[o.readPos + |c|..];
    }
  }

  /**
   * While nothing has been appended since the flag was set, the drain as
   * written takes the corrected step, and the state it moves to keeps that
   * condition: without late appends the code drains as DrainChunks says.
   */
  lemma DrainStepAgrees(o: Overflow, lowat: nat)
    requires o.readPos <= |o.data|
    requires o.eof ==> o.readPos == |o.data|
    ensures DrainStep(o, lowat) == FixedDrainStep(o, lowat)
    ensures DrainStep(o, lowat).SendChunk? ==>
      var n := DrainStep(o, lowat).next;
      n.readPos <= |n.data| && (n.eof ==> n.readPos == |n.data|)
  {
  }

  /** The chunks successive corrected drain steps send until the file is removed. */
  function DrainChunks(o: Overflow, lowat: nat): seq<seq<byte>>
    requires o.readPos <= |o.data| && lowat >= 1
    decreases 2 * (|o.data| - o.readPos) + (if o.eof then 0 else 1)
  {
    match FixedDrainStep(o, lowat)
    case TearDown => []
    case SendChunk(c, next) => [c] + DrainChunks(next, lowat)
  }

  /**
   * Draining delivers exactly the unread bytes, in order, in chunks of at
   * most `lowat`, all non-empty but the last, within one tick more than
   * there are unread bytes.
   */
  lemma {:induction false} DrainChunksDeliverUnread(o: Overflow, lowat: nat)
    requires o.readPos <= |o.data| && lowat >= 1
    ensures Concat(DrainChunks(o, lowat)) == o.data[o.readPos..]
    ensures forall k :: 0 <= k < |DrainChunks(o, lowat)| ==> |DrainChunks(o, lowat)[k]| <= lowat
    ensures forall k :: 0 <= k < |DrainChunks(o, lowat)| - 1 ==> 1 <= |DrainChunks(o, lowat)[k]|
    ensures |DrainChunks(o, lowat)| <= |o.data| - o.readPos + 1
    decreases 2 * (|o.data| - o.readPos) + (if o.eof then 0 else 1)
  {
    match FixedDrainStep(o, lowat)
    case TearDown =>
    case SendChunk(c, next) =>
      DrainChunksDeliverUnread(next, lowat);
      var cs := DrainChunks(o, lowat);
      assert cs == [c] + DrainChunks(next, lowat);
      assert o.data[o.readPos..] == c + next.data[next.readPos..];
      if c == [] {
        assert DrainChunks(next, lowat) == [];
      }
      forall k | 0 <= k < |cs|
        ensures |cs[k]| <= lowat
        ensures k < |cs| - 1 ==> 1 <= |cs[k]|
      {
        if k > 0 {
          assert cs[k] == DrainChunks(next, lowat)[k - 1];
        }
      }
  }

  // ---------------------------------------------------------------------------
  // The stream
  // ---------------------------------------------------------------------------

  /**
   * One socket stream. `overflow` stands for the pair of handles on the
   * temporary file (both set or both null in the source); `writableListener`
   * and `closeListener` record whether the drain and cleanup callbacks are
   * registered. `accepted` is what the socket has taken, `written` the
   * concatenation of every payload `write` accepted from its callers, and
   * `rejectedWrites` counts pending writes rejected by a failed drain.
   */
  class SocketStream {
    const address: Option<string>
    const endpoint: Option<(string, int)>
    var blocking: bool
    var overflow: Option<Overflow>
    var writableListener: bool
    var closeListener: bool
    ghost var accepted: seq<byte>
    ghost var written: seq<byte>
    ghost var rejectedWrites: nat

    ghost predicate Valid()
      reads this
    {
      && (overflow.Some? ==> overflow.value.readPos <= |overflow.value.data|)
      && (closeListener <==> overflow.Some?)
      && (overflow.Some? ==> blocking)
      && (writableListener ==> blocking)
    }

    /** The bytes written to the overflow file and not yet read back. */
    ghost function Unread(): seq<byte>
      reads this
      requires Valid()
    {
      match overflow
      case None => []
      case Some(o) => o.data[o.readPos..]
    }

    /** FIFO order: what the socket took, followed by what waits in the file, is everything written. */
    ghost predicate InOrder()
      reads this
      requires Valid()
    {
      accepted + Unread() == written
    }

    constructor (peerName: Option<string>, socketName: Option<string>)
      ensures Valid() && InOrder()
      ensures address == PeerAddress(peerName, socketName) && endpoint == Endpoint(address)
      ensures !blocking && overflow == None && !writableListener && !closeListener
      ensures accepted == [] && written == [] && rejectedWrites == 0
    {
      address := PeerAddress(peerName, socketName);
      endpoint := Endpoint(PeerAddress(peerName, socketName));
      blocking := false;
      overflow := None;
      writableListener := false;
      closeListener := false;
      accepted := [];
      written := [];
      rejectedWrites := 0;
    }

    /**
     * `write` (with `writeInternal`): while an overflow file exists, append to
     * it and wait on the pending write, which fails with CONNECTION_WRITE_FAIL
     * once a failed drain has rejected it (the drain callback is then
     * cancelled while the file stays); otherwise, in blocking mode, create the
     * file and append; otherwise write to the socket and spill the unsent
     * suffix into a new file.
     */
    method Write(s: seq<byte>, send: SendResult) returns (r: WriteOutcome)
      requires Valid()
      requires send.Sent? ==> send.count <= |s|
      modifies this
      ensures Valid()
      ensures rejectedWrites == old(rejectedWrites)
      ensures old(overflow).Some? ==>
        && r == (if old(writableListener) then Queued else WriteError(WriteFail))
        && overflow == Some(old(overflow).value.(data := old(overflow).value.data + s))
        && accepted == old(accepted) && written == old(written) + s
        && blocking && writableListener == old(writableListener)
      ensures old(overflow).None? && old(blocking) ==>
        && r == Queued
        && overflow == Some(Overflow(s, 0, false))
        && accepted == old(accepted) && written == old(written) + s
        && blocking && writableListener
      ensures old(overflow).None? && !old(blocking) && send.SendFailed? ==>
        && r == WriteError(WriteFail)
        && overflow == None && !blocking && writableListener == old(writableListener)
        && accepted == old(accepted) && written == old(written)
      ensures old(overflow).None? && !old(blocking) && send.Sent? && send.count == |s| ==>
        && r == Written(|s|)
        && overflow == None && !blocking && writableListener == old(writableListener)
        && accepted == old(accepted) + s && written == old(written) + s
      ensures old(overflow).None? && !old(blocking) && send.Sent? && send.count < |s| ==>
        && r == Queued
        && overflow == Some(Overflow(s[send.count..], 0, false))
        && accepted == old(accepted) + s[..send.count] && written == old(written) + s
        && blocking && writableListener
      ensures old(InOrder()) ==> InOrder()
    {
      if overflow.Some? {
        AppendOverflow(s);
        r := if writableListener then Queued else WriteError(WriteFail);
      } else if blocking {
        PrepareBlockingMode();
        AppendOverflow(s);
        assert [] + s == s;
        r := Queued;
      } else {
        match send
        case SendFailed =>
          r := WriteError(WriteFail);
        case Sent(n) =>
          accepted := accepted + s[..n];
          written := written + s;
          if n < |s| {
            blocking := true;
            PrepareBlockingMode();
            overflow := Some(Overflow(s[n..], 0, false));
            r := Queued;
          } else {
            assert s[..n] == s;
            r := Written(n);
          }
      }
    }

    /** Append a payload through the overflow file's write handle. */
    method AppendOverflow(s: seq<byte>)
      requires Valid() && overflow.Some?
      modifies this`overflow, this`written
      ensures Valid()
      ensures overflow == Some(old(overflow).value.(data := old(overflow).value.data + s))
      ensures written == old(written) + s
      ensures old(InOrder()) ==> InOrder()
    {
      var o := overflow.value;
      overflow := Some(o.(data := o.data + s));
      written := written + s;
      assert (o.data + s)[o.readPos..] == o.data[o.readPos..] + s;
    }

    /** `prepareBlockingMode`: create the overflow file and register the cleanup and drain callbacks, unless a file already exists. */
    method PrepareBlockingMode()
      requires Valid() && blocking
      modifies this`overflow, this`writableListener, this`closeListener
      ensures Valid()
      ensures old(overflow).None? ==> overflow == Some(Overflow([], 0, false)) && writableListener && closeListener
      ensures old(overflow).Some? ==> overflow == old(overflow) && writableListener == old(writableListener) && closeListener == old(closeListener)
      ensures Unread() == old(Unread())
    {
      if overflow.None? {
        overflow := Some(Overflow([], 0, false));
        closeListener := true;
        writableListener := true;
      }
    }

    /** `cleanupTempFiles`: close both handles, remove the file, null both fields. */
    method CleanupTempFiles()
      modifies this`overflow
      ensures overflow == None
    {
      overflow := None;
    }

    /**
     * One firing of the writable-readiness callback, as the code has it. When
     * the read handle's end-of-file flag is set it leaves blocking mode,
     * removes the file and cancels both callbacks, dropping whatever was
     * appended after the flag was set. Otherwise it reads up to `lowat` bytes
     * (a short read sets the flag) and writes them to the socket; the count
     * the socket reports is discarded, and a thrown ConnectionException
     * cancels this callback and rejects the pending write.
     */
    method DrainTick(lowat: nat, send: SendResult)
      requires Valid() && writableListener && overflow.Some?
      requires lowat >= 1
      requires send.Sent? ==> send.count <= |NextChunk(overflow.value, lowat)|
      modifies this
      ensures Valid()
      ensures written == old(written)
      ensures old(DrainStep(overflow.value, lowat)).TearDown? ==>
        && !blocking && overflow == None && !writableListener && !closeListener
        && accepted == old(accepted) && rejectedWrites == old(rejectedWrites)
      ensures old(DrainStep(overflow.value, lowat)).SendChunk? ==>
        var step := old(DrainStep(overflow.value, lowat));
        && overflow == Some(step.next)
        && blocking
        && (send.Sent? ==> accepted == old(accepted) + step.chunk[..send.count] && writableListener && rejectedWrites == old(rejectedWrites))
        && (send.SendFailed? ==> accepted == old(accepted) && !writableListener && rejectedWrites == old(rejectedWrites) + 1)
      ensures old(InOrder()) && old(overflow.value.eof) ==> written == accepted + old(Unread())
      ensures old(InOrder()) && old(overflow.value.eof) ==> (InOrder() <==> old(Unread()) == [])
      ensures old(InOrder()) && !old(overflow.value.eof) && send == Sent(|old(NextChunk(overflow.value, lowat))|) ==> InOrder()
    {
      var o := overflow.value;
      if o.eof {
        ghost var lost := Unread();
        blocking := false;
        CleanupTempFiles();
        writableListener := false;
        closeListener := false;
        assert |accepted + lost| == |accepted| + |lost|;
      } else {
        var chunk := NextChunk(o, lowat);
        overflow := Some(o.(readPos := o.readPos + |chunk|, eof := |chunk| < lowat));
        assert o.data[o.readPos..] == chunk + o.data[o.readPos + |chunk|..];
        match send
        case Sent(n) =>
          accepted := accepted + chunk[..n];
          assert n == |chunk| ==> chunk[..n] == chunk;
        case SendFailed =>
          writableListener := false;
          rejectedWrites := rejectedWrites + 1;
      }
    }

    /** The close callback registered with the overflow file: it cleans the file up and leaves `blocking` and the drain callback as they were. */
    method OnClose()
      requires Valid() && closeListener
      modifies this
      ensures Valid()
      ensures overflow == None && !closeListener
      ensures blocking == old(blocking) && writableListener == old(writableListener)
      ensures accepted == old(accepted) && written == old(written) && rejectedWrites == old(rejectedWrites)
    {
      CleanupTempFiles();
      closeListener := false;
    }
  }
}
