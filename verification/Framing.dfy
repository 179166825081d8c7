/** Length-prefixed framing: AppProtocol::parseStream on a buffer that fills in arbitrary pieces, the
    loop that drains it, and the length prefix that ProxyProtocol::tarsRequest writes. */
module Framing {
  import opened Basics

  type Byte = x: nat | x < 256

  const TARS_NET_MAX_PACKAGE_SIZE: nat := 1024 * 1024 * 100

  /** The unsigned types net2host converts. */
  datatype LengthType = U8 | U16 | U32 {
    function Size(): (n: nat) { match this case U8 => 1 case U16 => 2 case U32 => 4 }
    function Modulus(): (m: nat) { match this case U8 => 0x100 case U16 => 0x1_0000 case U32 => 0x1_0000_0000 }
  }

  /** The template arguments of parseStream: where the length field is, its type and byte order. */
  datatype Format = Format(offset: nat, field: LengthType, netorder: bool) {
    function Header(): (n: nat) { offset + field.Size() }

    /** The header length itself fits the length type. */
    predicate Sane() { Header() < field.Modulus() }
  }

  function BigEndian(bs: seq<Byte>): (v: nat) {
    if bs == [] then 0 else BigEndian(bs[..|bs| - 1]) * 256 + bs[|bs| - 1]
  }

  function LittleEndian(bs: seq<Byte>): (v: nat) {
    if bs == [] then 0 else bs[0] + 256 * LittleEndian(bs[1..])
  }

  /** memcpy into the length variable, then net2host when the field is in network order. */
  function HeaderLength(f: Format, buf: seq<Byte>): (n: nat)
    requires |buf| >= f.Header()
  {
    var field := buf[f.offset..f.Header()];
    if f.netorder then BigEndian(field) else LittleEndian(field)
  }

  datatype Packet = Less | Err | Full(frame: seq<Byte>, rest: seq<Byte>)

  /** One call of parseStream. The minimum is compared after truncation to the length type. */
  function Parse(f: Format, buf: seq<Byte>): (p: Packet)
    ensures p.Full? ==> p.frame + p.rest == buf
  {
    if |buf| < f.Header() then Less
    else
      var n := HeaderLength(f, buf);
      if n < f.Header() % f.field.Modulus() || n > TARS_NET_MAX_PACKAGE_SIZE then Err
      else if |buf| < n then Less
      else Full(buf[..n], buf[n..])
  }

  // ----- Draining a buffer -----

  datatype Drained = Drained(frames: seq<seq<Byte>>, rest: seq<Byte>, err: bool) {
    function After(before: seq<seq<Byte>>): (d: Drained) { Drained(before + frames, rest, err) }
  }

  /** Parse until no full packet is left.  A full packet that consumes nothing is a protocol error,
      and an error closes the connection, which empties the buffer. */
  function Drain(f: Format, buf: seq<Byte>): (d: Drained)
    decreases |buf|
  {
    match Parse(f, buf)
    case Less => Drained([], buf, false)
    case Err => Drained([], [], true)
    case Full(frame, rest) =>
      if frame == [] then Drained([frame], [], true) else Drain(f, rest).After([frame])
  }

  lemma FlattenCons(first: seq<Byte>, parts: seq<seq<Byte>>, rest: seq<Byte>)
    ensures Flatten([first] + parts) + rest == first + (Flatten(parts) + rest)
  {
    assert ([first] + parts)[1..] == parts;
  }

  lemma AfterAfter(d: Drained, a: seq<seq<Byte>>, b: seq<seq<Byte>>)
    ensures d.After(b).After(a) == d.After(a + b)
  {
    assert a + (b + d.frames) == a + b + d.frames;
  }

  /** One more chunk for a connection that has delivered s.frames and still buffers s.rest. */
  function Feed(f: Format, s: Drained, chunk: seq<Byte>): (t: Drained) {
    if s.err then s else Drain(f, s.rest + chunk).After(s.frames)
  }

  function FeedAll(f: Format, s: Drained, chunks: seq<seq<Byte>>): (t: Drained)
    decreases |chunks|
  {
    if chunks == [] then s else FeedAll(f, Feed(f, s, chunks[0]), chunks[1..])
  }

  const OPENED := Drained([], [], false)

  class NetWorkBuffer {
    var data: seq<Byte>

    constructor ()
      ensures data == []
    {
      data := [];
    }

    /** parseStream: a full packet is copied out and removed, otherwise the buffer is untouched. */
    method ParseStream(f: Format) returns (ret: Packet)
      modifies this
      ensures ret == Parse(f, old(data))
      ensures data == if ret.Full? then ret.rest else old(data)
    {
      var len := f.Header();
      if |data| < len {
        return Less;
      }
      var iHeaderLen := HeaderLength(f, data);
      if iHeaderLen < len % f.field.Modulus() || iHeaderLen > TARS_NET_MAX_PACKAGE_SIZE {
        return Err;
      }
      if |data| < iHeaderLen {
        return Less;
      }
      var out := data[..iHeaderLen];
      data := data[iHeaderLen..];
      return Full(out, data);
    }

    /** doProtocolAnalysis: parse for as long as whole packets come out. */
    method DoProtocolAnalysis(f: Format) returns (frames: seq<seq<Byte>>, err: bool)
      modifies this
      ensures Drained(frames, data, err) == Drain(f, old(data))
    {
      frames, err := [], false;
      var more := true;
      while more
        invariant more ==> !err
        invariant more ==> Drain(f, old(data)) == Drain(f, data).After(frames)
        invariant !more ==> Drain(f, old(data)) == Drained(frames, data, err)
        decreases more, |data|
      {
        ghost var before := data;
        var ret := ParseStream(f);
        match ret
        case Less => more := false;
        case Err => more, err, data := false, true, [];
        case Full(frame, rest) =>
          AfterAfter(Drain(f, rest), frames, [frame]);
          frames := frames + [frame];
          if frame == [] {
            more, err, data := false, true, [];
          } else {
            assert before == frame + rest;
          }
      }
    }

    /** doResponse over a whole connection: each received chunk is appended and the buffer drained. */
    method Receive(f: Format, chunks: seq<seq<Byte>>) returns (frames: seq<seq<Byte>>, err: bool)
      requires data == []
      modifies this
      ensures Drained(frames, data, err) == Drain(f, Flatten(chunks))
    {
      frames, err := [], false;
      var i := 0;
      while i < |chunks| && !err
        invariant 0 <= i <= |chunks|
        invariant FeedAll(f, OPENED, chunks) == FeedAll(f, Drained(frames, data, err), chunks[i..])
      {
        data := data + chunks[i];
        ghost var before := Drained(frames, data, err);
        var more;
        more, err := DoProtocolAnalysis(f);
        frames := frames + more;
        assert chunks[i..][1..] == chunks[i + 1..];
        i := i + 1;
      }
      if err {
        FeedClosed(f, Drained(frames, data, err), chunks[i..]);
      }
      SplitIndependent(f, chunks);
    }
  }

  // ----- Fragmentation does not matter -----

  /** A verdict other than "not enough yet" is final: more bytes only lengthen the remainder. */
  lemma ParseStable(f: Format, a: seq<Byte>, b: seq<Byte>)
    ensures Parse(f, a) == Err ==> Parse(f, a + b) == Err
    ensures Parse(f, a).Full? ==> Parse(f, a + b) == Full(Parse(f, a).frame, Parse(f, a).rest + b)
  {
    if |a| >= f.Header() {
      assert (a + b)[f.offset..f.Header()] == a[f.offset..f.Header()];
      var n := HeaderLength(f, a);
      if |a| >= n {
        assert (a + b)[..n] == a[..n];
        assert (a + b)[n..] == a[n..] + b;
      }
    }
  }

  /** Draining early and carrying the remainder over is the same as draining everything at once. */
  lemma {:induction false} DrainSplit(f: Format, a: seq<Byte>, b: seq<Byte>)
    ensures Drain(f, a + b) == Feed(f, Drain(f, a), b)
    decreases |a|
  {
    ParseStable(f, a, b);
    match Parse(f, a)
    case Less =>
    case Err =>
    case Full(frame, rest) =>
      if frame != [] {
        DrainSplit(f, rest, b);
        var d := Drain(f, rest);
        if !d.err {
          AfterAfter(Drain(f, d.rest + b), [frame], d.frames);
        }
      }
  }

  lemma {:induction false} FeedClosed(f: Format, s: Drained, chunks: seq<seq<Byte>>)
    requires s.err
    ensures FeedAll(f, s, chunks) == s
    decreases |chunks|
  {
    if chunks == [] {
    } else {
      FeedClosed(f, s, chunks[1..]);
    }
  }

  lemma {:induction false} FeedAllFrom(f: Format, before: seq<Byte>, chunks: seq<seq<Byte>>)
    ensures FeedAll(f, Drain(f, before), chunks) == Drain(f, before + Flatten(chunks))
    decreases |chunks|
  {
    if chunks == [] {
      assert before + [] == before;
    } else {
      var joined := before + chunks[0];
      assert before + Flatten(chunks) == joined + Flatten(chunks[1..]);
      DrainSplit(f, before, chunks[0]);
      FeedAllFrom(f, joined, chunks[1..]);
    }
  }

  /** For every stream and every way of cutting it into chunks, frames, remainder and error verdict
      are those of the uncut stream. */
  lemma SplitIndependent(f: Format, chunks: seq<seq<Byte>>)
    ensures FeedAll(f, OPENED, chunks) == Drain(f, Flatten(chunks))
  {
    FeedAllFrom(f, [], chunks);
    assert [] + Flatten(chunks) == Flatten(chunks);
  }

  // ----- Round trip -----

  /** A frame whose length field holds its total length, within the limit. */
  predicate WellFormed(f: Format, frame: seq<Byte>) {
    f.Header() <= |frame| <= TARS_NET_MAX_PACKAGE_SIZE && HeaderLength(f, frame) == |frame|
  }

  lemma ParseWellFormed(f: Format, frame: seq<Byte>, rest: seq<Byte>)
    requires WellFormed(f, frame)
    ensures Parse(f, frame + rest) == Full(frame, rest)
  {
    assert f.Header() % f.field.Modulus() <= f.Header() by {
      assert f.Header() == f.field.Modulus() * (f.Header() / f.field.Modulus()) + f.Header() % f.field.Modulus();
    }
    assert frame[..|frame|] == frame && frame[|frame|..] == [];
    ParseStable(f, frame, rest);
    assert [] + rest == rest;
  }

  lemma {:induction false} DrainWellFormed(f: Format, frames: seq<seq<Byte>>, rest: seq<Byte>)
    requires forall x :: x in frames ==> WellFormed(f, x)
    ensures Drain(f, Flatten(frames) + rest) == Drain(f, rest).After(frames)
    decreases |frames|
  {
    if frames == [] {
      assert Flatten(frames) + rest == rest;
    } else {
      var tail := Flatten(frames[1..]) + rest;
      assert [frames[0]] + frames[1..] == frames;
      FlattenCons(frames[0], frames[1..], rest);
      ParseWellFormed(f, frames[0], tail);
      DrainWellFormed(f, frames[1..], rest);
      AfterAfter(Drain(f, rest), [frames[0]], frames[1..]);
    }
  }

  /** Any list of well-formed frames, cut into any chunks, comes back frame by frame with nothing left. */
  lemma FramingRoundTrip(f: Format, frames: seq<seq<Byte>>, chunks: seq<seq<Byte>>)
    requires forall x :: x in frames ==> WellFormed(f, x)
    requires Flatten(chunks) == Flatten(frames)
    ensures FeedAll(f, OPENED, chunks) == Drained(frames, [], false)
  {
    SplitIndependent(f, chunks);
    DrainWellFormed(f, frames, []);
    assert Flatten(frames) + [] == Flatten(frames);
  }

  lemma ParsedFrame(f: Format, buf: seq<Byte>)
    requires f.Sane() && Parse(f, buf).Full?
    ensures WellFormed(f, Parse(f, buf).frame)
  {
    var n := HeaderLength(f, buf);
    ModUnique(f.Header(), f.field.Modulus(), 0, f.Header());
    assert f.Header() <= n <= |buf|;
    assert buf[..n][f.offset..f.Header()] == buf[f.offset..f.Header()];
  }

  lemma {:induction false} DrainAccounts(f: Format, buf: seq<Byte>)
    requires f.Sane() && !Drain(f, buf).err
    ensures Flatten(Drain(f, buf).frames) + Drain(f, buf).rest == buf
    ensures Parse(f, Drain(f, buf).rest) == Less
    ensures forall x :: x in Drain(f, buf).frames ==> WellFormed(f, x)
    decreases |buf|
  {
    match Parse(f, buf)
    case Less =>
      assert [] + buf == buf;
    case Full(frame, rest) =>
      ParsedFrame(f, buf);
      DrainAccounts(f, rest);
      FlattenCons(frame, Drain(f, rest).frames, Drain(f, rest).rest);
  }

  /** What an error-free connection has delivered is the only cutting of the bytes into well-formed
      frames followed by an incomplete one. */
  lemma DeliveredExactly(f: Format, chunks: seq<seq<Byte>>, frames: seq<seq<Byte>>, rest: seq<Byte>)
    requires f.Sane()
    ensures FeedAll(f, OPENED, chunks) == Drained(frames, rest, false)
            <==> Flatten(frames) + rest == Flatten(chunks) && Parse(f, rest) == Less
                 && forall x :: x in frames ==> WellFormed(f, x)
  {
    SplitIndependent(f, chunks);
    if FeedAll(f, OPENED, chunks) == Drained(frames, rest, false) {
      DrainAccounts(f, Flatten(chunks));
    }
    if Flatten(frames) + rest == Flatten(chunks) && Parse(f, rest) == Less
       && forall x :: x in frames ==> WellFormed(f, x) {
      DrainWellFormed(f, frames, rest);
      assert frames + [] == frames;
    }
  }

  // ----- The writer -----

  /** htonl of a length narrowed to 32 bits, as it lies in memory: the last byte is the lowest. */
  function NetworkOrder(n: nat): (bs: seq<Byte>)
    ensures |bs| == 4
  {
    Digits(n, 4)
  }

  function Digits(n: nat, k: nat): (bs: seq<Byte>)
    ensures |bs| == k
  {
    if k == 0 then [] else Digits(n / 0x100, k - 1) + [n % 0x100]
  }

  function Power(k: nat): (p: nat)
    ensures p > 0
  {
    if k == 0 then 1 else 0x100 * Power(k - 1)
  }

  lemma ModSplit(n: nat, p: nat)
    requires p > 0
    ensures n % (0x100 * p) == n / 0x100 % p * 0x100 + n % 0x100
  {
    var q := n / 0x100 / p;
    var r := n / 0x100 % p * 0x100 + n % 0x100;
    assert n / 0x100 == p * q + n / 0x100 % p;
    assert n == 0x100 * (p * q) + r;
    assert 0x100 * (p * q) == (0x100 * p) * q;
    ModUnique(n, 0x100 * p, q, r);
  }

  lemma ModUnique(n: nat, m: nat, q: nat, r: nat)
    requires n == m * q + r && r < m
    ensures n % m == r
  {
    assert n == m * (n / m) + n % m;
    var d := q - n / m;
    assert m * d == n % m - r;
    assert d > 0 ==> m * d >= m;
    assert d < 0 ==> m * d <= 0 - m;
  }

  lemma {:induction false} DigitsRead(n: nat, k: nat)
    ensures BigEndian(Digits(n, k)) == n % Power(k)
  {
    if k == 0 {
    } else {
      DigitsRead(n / 0x100, k - 1);
      ModSplit(n, Power(k - 1));
      assert Digits(n, k)[..k - 1] == Digits(n / 0x100, k - 1);
    }
  }

  lemma NetworkOrderReads(n: nat)
    ensures BigEndian(NetworkOrder(n)) == n % 0x1_0000_0000
  {
    DigitsRead(n, 4);
    assert Power(4) == 0x1_0000_0000 by {
      assert Power(2) == 0x1_0000;
    }
  }

  /** tarsRequest: four bytes are reserved, the body is written after them, and the total length is
      then patched over the reserved bytes. */
  method TarsRequest(body: seq<Byte>) returns (os: array<Byte>)
    ensures fresh(os)
    ensures os[..] == NetworkOrder(4 + |body|) + body
  {
    var length := 4 + |body|;
    os := new Byte[length](_ => 0);
    for i := 0 to |body|
      invariant forall k :: 0 <= k < i ==> os[4 + k] == body[k]
    {
      os[4 + i] := body[i];
    }
    assert os[4..] == body;
    var iHeaderLen := NetworkOrder(length);
    for i := 0 to 4
      invariant forall k :: 0 <= k < i ==> os[k] == iHeaderLen[k]
      invariant os[4..] == body
    {
      os[i] := iHeaderLen[i];
    }
    assert os[..] == os[..4] + os[4..];
  }

  const TARS_FORMAT := Format(0, U32, true)

  lemma WrittenWellFormed(body: seq<Byte>)
    requires 4 + |body| <= TARS_NET_MAX_PACKAGE_SIZE
    ensures WellFormed(TARS_FORMAT, NetworkOrder(4 + |body|) + body)
  {
    NetworkOrderReads(4 + |body|);
    assert (NetworkOrder(4 + |body|) + body)[0..4] == NetworkOrder(4 + |body|);
  }

  /** The receiver takes a written request as one frame exactly when it is within the size limit:
      the 32-bit prefix of a larger one is refused or cuts it short. */
  lemma WrittenRequestIsFrame(body: seq<Byte>, rest: seq<Byte>)
    ensures var frame := NetworkOrder(4 + |body|) + body;
            Parse(TARS_FORMAT, frame + rest) == Full(frame, rest) <==> 4 + |body| <= TARS_NET_MAX_PACKAGE_SIZE
  {
    if 4 + |body| <= TARS_NET_MAX_PACKAGE_SIZE {
      WrittenWellFormed(body);
      ParseWellFormed(TARS_FORMAT, NetworkOrder(4 + |body|) + body, rest);
    }
  }

  function WrittenRequests(bodies: seq<seq<Byte>>): (frames: seq<seq<Byte>>)
    ensures |frames| == |bodies|
    ensures forall i :: 0 <= i < |bodies| ==> frames[i] == NetworkOrder(4 + |bodies[i]|) + bodies[i]
  {
    seq(|bodies|, i requires 0 <= i < |bodies| => NetworkOrder(4 + |bodies[i]|) + bodies[i])
  }

  /** Writer and reader are inverse over any fragmentation of any run of requests. */
  lemma RequestsRoundTrip(bodies: seq<seq<Byte>>, chunks: seq<seq<Byte>>)
    requires forall b :: b in bodies ==> 4 + |b| <= TARS_NET_MAX_PACKAGE_SIZE
    requires Flatten(chunks) == Flatten(WrittenRequests(bodies))
    ensures FeedAll(TARS_FORMAT, OPENED, chunks) == Drained(WrittenRequests(bodies), [], false)
  {
    var frames := WrittenRequests(bodies);
    forall i | 0 <= i < |frames|
      ensures WellFormed(TARS_FORMAT, frames[i])
    {
      WrittenWellFormed(bodies[i]);
    }
    FramingRoundTrip(TARS_FORMAT, frames, chunks);
  }
}
