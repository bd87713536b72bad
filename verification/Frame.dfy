/** Length-prefixed frames on a byte stream (core/protocol/frame.go). */
module Frames {
  import opened Common

  const MAGIC0: byte := 0x43
  const MAGIC1: byte := 0x53
  const VERSION: byte := 1
  const HEADER_SIZE: nat := 7
  const MAX_FRAME_LEN: nat := 0x40_0000

  /** io.EOF and io.ErrUnexpectedEOF come from the stream, the others from this package. */
  datatype Error = Eof | UnexpectedEof | BadMagic | BadVersion | TooLarge | Truncated | WriteFailed

  /** One read: a payload or an error, and what is left of the stream. */
  datatype Read = Frame(payload: seq<byte>, rest: seq<byte>) | Failed(err: Error, rest: seq<byte>)

  /** binary.BigEndian.PutUint32. */
  function BigEndian(n: nat): (b: seq<byte>)
    requires n < TWO32
    ensures |b| == 4
  {
    [(n / 0x100_0000) as byte, (n / 0x1_0000 % 0x100) as byte, (n / 0x100 % 0x100) as byte, (n % 0x100) as byte]
  }

  function Uint32(b: seq<byte>): nat
    requires |b| == 4
  {
    b[0] as int * 0x100_0000 + b[1] as int * 0x1_0000 + b[2] as int * 0x100 + b[3] as int
  }

  lemma PutThenGet(n: nat)
    requires n < TWO32
    ensures Uint32(BigEndian(n)) == n
  {
    var high := n / 0x100;
    assert n == high * 0x100 + n % 0x100;
    assert high == n / 0x1_0000 * 0x100 + n / 0x100 % 0x100;
    assert n / 0x1_0000 == n / 0x100_0000 * 0x100 + n / 0x1_0000 % 0x100;
  }

  lemma GetThenPut(b: seq<byte>)
    requires |b| == 4
    ensures Uint32(b) < TWO32 && BigEndian(Uint32(b)) == b
  {
    Digits(b[0], b[1], b[2], b[3]);
  }

  lemma Digits(a: byte, b: byte, c: byte, d: byte)
    ensures var n := a as int * 0x100_0000 + b as int * 0x1_0000 + c as int * 0x100 + d as int;
            && 0 <= n < TWO32 && n / 0x100_0000 == a as int && n / 0x1_0000 % 0x100 == b as int
            && n / 0x100 % 0x100 == c as int && n % 0x100 == d as int
  {
    var n := a as int * 0x100_0000 + b as int * 0x1_0000 + c as int * 0x100 + d as int;
    var m, h := a as int * 0x1_0000 + b as int * 0x100 + c as int, a as int * 0x100 + b as int;
    assert n / 0x100 == m && n % 0x100 == d as int;
    assert m / 0x100 == h && m % 0x100 == c as int;
    assert n / 0x1_0000 == h && n / 0x100_0000 == a as int;
  }

  function Header(n: nat): (h: seq<byte>)
    requires n < TWO32
    ensures |h| == HEADER_SIZE
  {
    [MAGIC0, MAGIC1, VERSION] + BigEndian(n)
  }

  function Encode(p: seq<byte>): seq<byte>
    requires |p| <= MAX_FRAME_LEN
  {
    Header(|p|) + p
  }

  /** Why a complete header is refused, if it is. */
  function HeaderError(h: seq<byte>): Option<Error>
    requires |h| == HEADER_SIZE
  {
    if h[0] != MAGIC0 || h[1] != MAGIC1 then Some(BadMagic)
    else if h[2] != VERSION then Some(BadVersion)
    else if Uint32(h[3..]) > MAX_FRAME_LEN then Some(TooLarge)
    else None
  }

  function Decode(s: seq<byte>): (r: Read)
    ensures |r.rest| <= |s| && (r.Frame? ==> |r.rest| < |s|)
  {
    if |s| < HEADER_SIZE then Failed(if s == [] then Eof else UnexpectedEof, [])
    else
      match HeaderError(s[..HEADER_SIZE])
      case Some(e) => Failed(e, s[HEADER_SIZE..])
      case None =>
        var n := Uint32(s[3..HEADER_SIZE]);
        if |s| < HEADER_SIZE + n then Failed(Truncated, [])
        else Frame(s[HEADER_SIZE..HEADER_SIZE + n], s[HEADER_SIZE + n..])
  }

  /** What a write took of b: all of it, or as many bytes as it managed before failing. */
  function Taken(b: seq<byte>, cut: Option<nat>): seq<byte> {
    if cut.Some? && cut.value < |b| then b[..cut.value] else b
  }

  /** What a frame's two writes took of it. */
  function Sent(payload: seq<byte>, head: Option<nat>, tail: Option<nat>): seq<byte>
    requires |payload| <= MAX_FRAME_LEN
  {
    if head.Some? then Taken(Header(|payload|), head) else Header(|payload|) + Taken(payload, tail)
  }

  /** A stream end: bytes in flight. */
  class Stream {
    var data: seq<byte>

    constructor (data: seq<byte>)
      ensures this.data == data
    {
      this.data := data;
    }

    /** A write that fails may have taken the first bytes. */
    method Write(b: seq<byte>, cut: Option<nat>) returns (ok: bool)
      modifies this
      ensures ok == cut.None? && data == old(data) + Taken(b, cut)
    {
      data := data + Taken(b, cut);
      ok := cut.None?;
    }

    /** io.ReadFull: fills buf, or consumes what there is and reports how it ended. */
    method ReadFull(buf: array<byte>) returns (err: Option<Error>)
      modifies this, buf
      ensures |old(data)| >= buf.Length ==>
                err == None && buf[..] == old(data)[..buf.Length] && data == old(data)[buf.Length..]
      ensures |old(data)| < buf.Length ==> err == Some(if old(data) == [] then Eof else UnexpectedEof) && data == []
    {
      var k := if |data| < buf.Length then |data| else buf.Length;
      var i := 0;
      while i < k
        invariant 0 <= i <= k && buf[..i] == old(data)[..i] && data == old(data)
      {
        buf[i] := data[i];
        i := i + 1;
      }
      data := data[k..];
      err := if k == buf.Length then None else if k == 0 then Some(Eof) else Some(UnexpectedEof);
    }

    /** The header of a frame of n bytes. */
    static method PutHeader(n: nat) returns (hdr: array<byte>)
      requires n < TWO32
      ensures fresh(hdr) && hdr[..] == Header(n)
    {
      hdr := new byte[HEADER_SIZE];
      hdr[0], hdr[1], hdr[2] := MAGIC0, MAGIC1, VERSION;
      hdr[3], hdr[4] := (n / 0x100_0000) as byte, (n / 0x1_0000 % 0x100) as byte;
      hdr[5], hdr[6] := (n / 0x100 % 0x100) as byte, (n % 0x100) as byte;
    }

    /** WriteFrame; head and tail say where its two writes fail, if they do. */
    method WriteFrame(payload: seq<byte>, head: Option<nat>, tail: Option<nat>) returns (err: Option<Error>)
      modifies this
      ensures |payload| > MAX_FRAME_LEN ==> err == Some(TooLarge) && data == old(data)
      ensures |payload| <= MAX_FRAME_LEN ==>
                && err == (if head.None? && tail.None? then None else Some(WriteFailed))
                && data == old(data) + Sent(payload, head, tail)
    {
      if |payload| > MAX_FRAME_LEN {
        return Some(TooLarge);
      }
      var hdr := PutHeader(|payload|);
      var ok := Write(hdr[..], head);
      if !ok {
        return Some(WriteFailed);
      }
      ghost var before := data;
      ok := Write(payload, tail);
      assert before + Taken(payload, tail) == old(data) + (Header(|payload|) + Taken(payload, tail));
      err := if ok then None else Some(WriteFailed);
    }

    /** The checks on a complete header, and the length it announces. */
    static method CheckHeader(hdr: array<byte>) returns (err: Option<Error>, n: nat)
      requires hdr.Length == HEADER_SIZE
      ensures err == HeaderError(hdr[..])
      ensures err.None? ==> n == Uint32(hdr[3..]) <= MAX_FRAME_LEN
    {
      assert hdr[..][3..] == hdr[3..];
      n := 0;
      if hdr[0] != MAGIC0 || hdr[1] != MAGIC1 {
        return Some(BadMagic), n;
      }
      if hdr[2] != VERSION {
        return Some(BadVersion), n;
      }
      n := Uint32(hdr[3..]);
      err := if n > MAX_FRAME_LEN then Some(TooLarge) else None;
    }

    /** The first half of ReadFrame: consumes a header, and says why it is refused or what length it announces. */
    method ReadHeader() returns (err: Option<Error>, n: nat)
      modifies this
      ensures |old(data)| < HEADER_SIZE ==> data == [] && err == Some(if old(data) == [] then Eof else UnexpectedEof)
      ensures |old(data)| >= HEADER_SIZE ==>
                && data == old(data)[HEADER_SIZE..] && err == HeaderError(old(data)[..HEADER_SIZE])
                && (err.None? ==> n == Uint32(old(data)[3..HEADER_SIZE]) <= MAX_FRAME_LEN)
    {
      var hdr := new byte[HEADER_SIZE];
      err := ReadFull(hdr);
      n := 0;
      if err.Some? { return; }
      err, n := CheckHeader(hdr);
      assert hdr[3..] == old(data)[3..HEADER_SIZE];
    }

    method ReadFrame() returns (r: Read)
      modifies this
      ensures r == Decode(old(data)) && data == r.rest
    {
      var err, n := ReadHeader();
      if err.Some? {
        return Failed(err.value, data);
      }
      var buf := new byte[n];
      err := ReadFull(buf);
      r := if err.Some? then Failed(Truncated, data) else Frame(buf[..], data);
      assert err.None? ==> buf[..] == old(data)[HEADER_SIZE..HEADER_SIZE + n];
    }
  }

  /** A read succeeds exactly on a frame followed by anything, and gives back both. */
  lemma DecodeIffEncoded(s: seq<byte>, p: seq<byte>, rest: seq<byte>)
    ensures Decode(s) == Frame(p, rest) <==> |p| <= MAX_FRAME_LEN && s == Encode(p) + rest
  {
    if |p| <= MAX_FRAME_LEN && s == Encode(p) + rest {
      EncodedDecodes(p, rest);
    } else if Decode(s) == Frame(p, rest) {
      DecodedWasEncoded(s);
    }
  }

  lemma EncodedDecodes(p: seq<byte>, rest: seq<byte>)
    requires |p| <= MAX_FRAME_LEN
    ensures Decode(Encode(p) + rest) == Frame(p, rest)
  {
    var s := Encode(p) + rest;
    assert s[..HEADER_SIZE] == Header(|p|);
    assert s[..HEADER_SIZE][3..] == s[3..HEADER_SIZE] == BigEndian(|p|);
    PutThenGet(|p|);
    assert s[HEADER_SIZE..HEADER_SIZE + |p|] == p && s[HEADER_SIZE + |p|..] == rest;
  }

  lemma DecodedWasEncoded(s: seq<byte>)
    requires Decode(s).Frame?
    ensures var r := Decode(s); |r.payload| <= MAX_FRAME_LEN && s == Encode(r.payload) + r.rest
  {
    var r := Decode(s);
    var h := s[..HEADER_SIZE];
    assert h[3..] == s[3..HEADER_SIZE];
    GetThenPut(h[3..]);
    assert h == [MAGIC0, MAGIC1, VERSION] + h[3..];
    assert s == h + (s[HEADER_SIZE..HEADER_SIZE + |r.payload|] + s[HEADER_SIZE + |r.payload|..]);
  }

  /** Every strict prefix of a frame is refused; the error tells where it was cut. */
  lemma PrefixRefused(p: seq<byte>, k: nat)
    requires |p| <= MAX_FRAME_LEN && k < |Encode(p)|
    ensures Decode(Encode(p)[..k]) ==
            Failed(if k == 0 then Eof else if k < HEADER_SIZE then UnexpectedEof else Truncated, [])
  {
    if k >= HEADER_SIZE {
      var s := Encode(p)[..k];
      assert s[..HEADER_SIZE] == Header(|p|);
      assert s[..HEADER_SIZE][3..] == s[3..HEADER_SIZE] == BigEndian(|p|);
      PutThenGet(|p|);
    }
  }

  /**
   The wire format: the bytes 'C' and 'S', version 1, the length of the payload
   with the most significant byte first, and the payload. At most 4 MiB fit.
   */
  lemma WireFormat(p: seq<byte>)
    requires |p| <= 4 * 1024 * 1024
    ensures var s := Encode(p);
            && |s| == 7 + |p| && s[7..] == p && s[..3] == [0x43, 0x53, 1]
            && |p| == ((s[3] as int * 256 + s[4] as int) * 256 + s[5] as int) * 256 + s[6] as int
  {
    PutThenGet(|p|);
    assert Encode(p)[3..7] == BigEndian(|p|);
  }

  /** The length a header announces. */
  function Announced(s: seq<byte>): nat
    requires |s| >= 7
  {
    ((s[3] as int * 256 + s[4] as int) * 256 + s[5] as int) * 256 + s[6] as int
  }

  /**
   Why any stream is refused, and where that leaves it: without a byte, within
   the header, behind a header that cannot be right, or within the payload.
   */
  lemma RefusedBecause(s: seq<byte>)
    requires Decode(s).Failed?
    ensures var e := Decode(s).err; var right := |s| >= 7 && s[..2] == [0x43, 0x53];
            && (e == Eof <==> s == []) && (e == UnexpectedEof <==> 0 < |s| < 7)
            && (e == BadMagic <==> |s| >= 7 && !right) && (e == BadVersion <==> right && s[2] != 1)
            && (e == TooLarge <==> right && s[2] == 1 && Announced(s) > 4 * 1024 * 1024)
            && (e == Truncated ==> |s| < 7 + Announced(s))
            && e != WriteFailed
            && Decode(s).rest == if e in {BadMagic, BadVersion, TooLarge} then s[7..] else []
  {
    if |s| >= 7 {
      assert s[..HEADER_SIZE][3..] == s[3..HEADER_SIZE];
      assert s[..2] == [s[0], s[1]];
    }
  }

  /** A failed write leaves the frame's first bytes, as many as the writes took. */
  lemma SentIsFront(p: seq<byte>, head: Option<nat>, tail: Option<nat>)
    requires |p| <= MAX_FRAME_LEN
    ensures var n := if head.Some? then (if head.value < 7 then head.value else 7)
                     else if tail.Some? && tail.value < |p| then 7 + tail.value else 7 + |p|;
            Sent(p, head, tail) == Encode(p)[..n]
  {
  }

  /** However its writes fail, a frame arrives whole or is refused. */
  lemma PartialFrameRefused(p: seq<byte>, head: Option<nat>, tail: Option<nat>)
    requires |p| <= MAX_FRAME_LEN
    ensures Decode(Sent(p, head, tail)) == Frame(p, []) <==> Sent(p, head, tail) == Encode(p)
    ensures Sent(p, head, tail) != Encode(p) ==> Decode(Sent(p, head, tail)).Failed?
    ensures head.None? && tail.None? ==> Sent(p, head, tail) == Encode(p)
  {
    var s := Sent(p, head, tail);
    DecodeIffEncoded(s, p, []);
    assert Encode(p) + [] == Encode(p);
    assert s == Encode(p)[..|s|];
    if |s| < |Encode(p)| {
      PrefixRefused(p, |s|);
    } else {
      assert s == Encode(p);
    }
  }

  predicate Fit(ps: seq<seq<byte>>) { forall i :: 0 <= i < |ps| ==> |ps[i]| <= MAX_FRAME_LEN }

  function EncodeAll(ps: seq<seq<byte>>): seq<byte>
    requires Fit(ps)
  {
    if ps == [] then [] else Encode(ps[0]) + EncodeAll(ps[1..])
  }

  /** Everything a reader gets until its first error, and that error. */
  function DecodeAll(s: seq<byte>): (seq<seq<byte>>, Error)
    decreases |s|
  {
    match Decode(s)
    case Failed(e, _) => ([], e)
    case Frame(p, rest) =>
      var (ps, e) := DecodeAll(rest);
      ([p] + ps, e)
  }

  /** How many of the frames lie wholly within the first k bytes. */
  function Whole(ps: seq<seq<byte>>, k: nat): (m: nat)
    requires Fit(ps)
    ensures m <= |ps|
  {
    if ps == [] || k < |Encode(ps[0])| then 0 else 1 + Whole(ps[1..], k - |Encode(ps[0])|)
  }

  lemma TakeMore(ps: seq<seq<byte>>, m: nat)
    requires Fit(ps) && 0 < m <= |ps|
    ensures ps[..m] == [ps[0]] + ps[1..][..m - 1] && Fit(ps[..m]) && Fit(ps[1..][..m - 1])
    ensures EncodeAll(ps[..m]) == Encode(ps[0]) + EncodeAll(ps[1..][..m - 1])
  {
    assert ps[..m][1..] == ps[1..][..m - 1];
  }

  /**
   A stream of frames cut anywhere yields exactly the frames that are whole, and
   ends cleanly only when the cut is between two of them.
   */
  lemma {:induction false} CutStreamYieldsWholeFrames(ps: seq<seq<byte>>, k: nat)
    requires Fit(ps) && k <= |EncodeAll(ps)|
    ensures var (got, e) := DecodeAll(EncodeAll(ps)[..k]); var m := Whole(ps, k);
            && got == ps[..m] && Fit(ps[..m]) && |EncodeAll(ps[..m])| <= k
            && (e == Eof <==> k == |EncodeAll(ps[..m])|) && e in {Eof, UnexpectedEof, Truncated}
  {
    var s := EncodeAll(ps)[..k];
    var m := Whole(ps, k);
    if ps == [] {
    } else if k < |Encode(ps[0])| {
      assert s == Encode(ps[0])[..k];
      PrefixRefused(ps[0], k);
    } else {
      var n := |Encode(ps[0])|;
      CutStreamYieldsWholeFrames(ps[1..], k - n);
      assert s == Encode(ps[0]) + EncodeAll(ps[1..])[..k - n];
      EncodedDecodes(ps[0], EncodeAll(ps[1..])[..k - n]);
      TakeMore(ps, m);
    }
  }

  lemma {:induction false} WholeOfAll(ps: seq<seq<byte>>)
    requires Fit(ps)
    ensures Whole(ps, |EncodeAll(ps)|) == |ps|
  {
    if ps != [] { WholeOfAll(ps[1..]); }
  }

  /** Frames written one after another are read back as they were, and then the stream ends. */
  lemma StreamRoundTrip(ps: seq<seq<byte>>)
    requires Fit(ps)
    ensures DecodeAll(EncodeAll(ps)) == (ps, Eof)
  {
    var s := EncodeAll(ps);
    CutStreamYieldsWholeFrames(ps, |s|);
    WholeOfAll(ps);
    assert s[..|s|] == s && ps[..|ps|] == ps;
  }
}
