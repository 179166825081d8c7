/** What each verdict of the frame parser means, and which bytes a length field is read from and written to. */
module FramingVerdicts {
  import opened Basics
  import opened Framing

  // ----- The length field -----

  /** The length is read from the field bytes alone, in the order the format says. */
  lemma HeaderReads(f: Format, before: seq<Byte>, field: seq<Byte>, after: seq<Byte>)
    requires |before| == f.offset && |field| == f.field.Size()
    ensures var buf := before + field + after;
            |buf| >= f.Header() && HeaderLength(f, buf) == if f.netorder then BigEndian(field) else LittleEndian(field)
  {
    assert (before + field + after)[f.offset..f.Header()] == field;
  }

  function Reversed(bs: seq<Byte>): (r: seq<Byte>)
    ensures |r| == |bs|
  {
    if bs == [] then [] else [bs[|bs| - 1]] + Reversed(bs[..|bs| - 1])
  }

  /** Each byte order reads what the other reads backwards. */
  lemma {:induction false} OrdersMirror(bs: seq<Byte>)
    ensures LittleEndian(Reversed(bs)) == BigEndian(bs)
  {
    if bs == [] {
    } else {
      OrdersMirror(bs[..|bs| - 1]);
      assert Reversed(bs)[1..] == Reversed(bs[..|bs| - 1]);
    }
  }

  /** In network order the first byte counts most. */
  lemma NetworkOrderBytes(n: nat)
    ensures NetworkOrder(n) == [n / 0x100_0000 % 0x100, n / 0x1_0000 % 0x100, n / 0x100 % 0x100, n % 0x100]
  {
    var a, b, c := n / 0x100, n / 0x1_0000, n / 0x100_0000;
    assert a / 0x100 == b && b / 0x100 == c;
    assert Digits(c, 1) == [c % 0x100] by { assert Digits(c / 0x100, 0) == []; }
    assert Digits(b, 2) == Digits(c, 1) + [b % 0x100];
    assert Digits(a, 3) == Digits(b, 2) + [a % 0x100];
    assert Digits(n, 4) == Digits(a, 3) + [n % 0x100];
  }

  // ----- The verdicts -----

  /** A frame that begins with the header of the buffer. */
  ghost predicate Begins(f: Format, frame: seq<Byte>, buf: seq<Byte>)
    requires |buf| >= f.Header()
  {
    WellFormed(f, frame) && buf[..f.Header()] <= frame
  }

  lemma SameHeader(f: Format, a: seq<Byte>, b: seq<Byte>)
    requires |a| >= f.Header() && |b| >= f.Header() && a[..f.Header()] == b[..f.Header()]
    ensures HeaderLength(f, a) == HeaderLength(f, b)
  {
    assert a[f.offset..f.Header()] == a[..f.Header()][f.offset..];
    assert b[f.offset..f.Header()] == b[..f.Header()][f.offset..];
  }

  /** Any length within the limits belongs to some frame. */
  lemma SomeFrame(f: Format, buf: seq<Byte>) returns (frame: seq<Byte>)
    requires |buf| >= f.Header() && f.Header() <= HeaderLength(f, buf) <= TARS_NET_MAX_PACKAGE_SIZE
    ensures Begins(f, frame, buf) && |frame| == HeaderLength(f, buf)
    ensures HeaderLength(f, buf) <= |buf| ==> frame == buf[..HeaderLength(f, buf)]
  {
    var n := HeaderLength(f, buf);
    frame := if n <= |buf| then buf[..n] else buf[..f.Header()] + seq(n - f.Header(), _ => 0);
    assert frame[..f.Header()] == buf[..f.Header()];
    SameHeader(f, frame, buf);
  }

  lemma FrameLength(f: Format, frame: seq<Byte>, buf: seq<Byte>)
    requires |buf| >= f.Header() && Begins(f, frame, buf)
    ensures |frame| == HeaderLength(f, buf)
  {
    assert frame[..f.Header()] == buf[..f.Header()];
    SameHeader(f, frame, buf);
  }

  lemma SaneMinimum(f: Format)
    requires f.Sane()
    ensures f.Header() % f.field.Modulus() == f.Header()
  {
    ModUnique(f.Header(), f.field.Modulus(), 0, f.Header());
  }

  /** Once the header is there the parser gives up exactly when no frame begins with it. */
  lemma ErrMeans(f: Format, buf: seq<Byte>)
    requires f.Sane() && |buf| >= f.Header()
    ensures Parse(f, buf) == Err <==> !exists frame :: Begins(f, frame, buf)
  {
    SaneMinimum(f);
    var n := HeaderLength(f, buf);
    if f.Header() <= n <= TARS_NET_MAX_PACKAGE_SIZE {
      var frame := SomeFrame(f, buf);
      assert Begins(f, frame, buf);
    } else {
      forall frame | Begins(f, frame, buf) ensures false {
        FrameLength(f, frame, buf);
      }
    }
  }

  /** A frame comes out exactly when the buffer starts with it. */
  lemma FullMeans(f: Format, buf: seq<Byte>, frame: seq<Byte>, rest: seq<Byte>)
    requires f.Sane()
    ensures Parse(f, buf) == Full(frame, rest) <==> WellFormed(f, frame) && buf == frame + rest
  {
    if Parse(f, buf) == Full(frame, rest) {
      ParsedFrame(f, buf);
    }
    if WellFormed(f, frame) && buf == frame + rest {
      ParseWellFormed(f, frame, rest);
    }
  }

  /** More bytes are waited for exactly until the header is there, and then as long as the frame it begins is not. */
  lemma LessMeans(f: Format, buf: seq<Byte>)
    requires f.Sane()
    ensures Parse(f, buf) == Less <==>
              |buf| < f.Header() || exists frame :: Begins(f, frame, buf) && |buf| < |frame|
  {
    if |buf| >= f.Header() {
      SaneMinimum(f);
      if Parse(f, buf) == Less {
        var frame := SomeFrame(f, buf);
        assert Begins(f, frame, buf) && |buf| < |frame|;
      }
      if frame :| Begins(f, frame, buf) && |buf| < |frame| {
        FrameLength(f, frame, buf);
      }
    }
  }

  // ----- Connections that end in an error -----

  lemma {:induction false} DrainRejects(f: Format, buf: seq<Byte>) returns (rest: seq<Byte>)
    requires f.Sane() && Drain(f, buf).err
    ensures Parse(f, rest) == Err && Flatten(Drain(f, buf).frames) + rest == buf
    ensures forall x :: x in Drain(f, buf).frames ==> WellFormed(f, x)
    decreases |buf|
  {
    match Parse(f, buf)
    case Err =>
      rest := buf;
      assert Flatten([]) + rest == rest;
    case Full(frame, more) =>
      ParsedFrame(f, buf);
      rest := DrainRejects(f, more);
      FlattenCons(frame, Drain(f, more).frames, rest);
  }

  /** A connection has delivered these frames and broken if and only if they are what its bytes begin with and no frame
      can follow them. */
  lemma RejectedExactly(f: Format, chunks: seq<seq<Byte>>, frames: seq<seq<Byte>>)
    requires f.Sane()
    ensures FeedAll(f, OPENED, chunks) == Drained(frames, [], true) <==>
              exists rest :: RejectedAt(f, Flatten(chunks), frames, rest)
  {
    SplitIndependent(f, chunks);
    if FeedAll(f, OPENED, chunks) == Drained(frames, [], true) {
      var rest := DrainRejects(f, Flatten(chunks));
      assert RejectedAt(f, Flatten(chunks), frames, rest);
    }
    if rest :| RejectedAt(f, Flatten(chunks), frames, rest) {
      DrainWellFormed(f, frames, rest);
      assert frames + [] == frames;
    }
  }

  ghost predicate RejectedAt(f: Format, bytes: seq<Byte>, frames: seq<seq<Byte>>, rest: seq<Byte>) {
    Flatten(frames) + rest == bytes && Parse(f, rest) == Err && forall x :: x in frames ==> WellFormed(f, x)
  }

  /** Where the header length does not fit the length type, a length of zero passes the check; the empty frame is
      delivered and the connection closed. */
  lemma EmptyFrameCloses(f: Format, buf: seq<Byte>)
    requires |buf| >= f.Header() && f.Header() % f.field.Modulus() == 0 && HeaderLength(f, buf) == 0
    ensures Drain(f, buf) == Drained([[]], [], true)
  {
    assert buf[..0] == [];
  }
}
