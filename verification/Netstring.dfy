/** Netstring framing of the control socket: the incremental decoder, the encoder, and what does
    and does not depend on the way a stream is cut into reads. */
module Netstring {
  import opened Wrappers
  import opened Decimal

  datatype Error = InvalidHeader | LeadingZero | FrameTooLarge | MissingTerminator | InvalidLength

  /** Largest value of `size_t`; a longer numeral does not parse. */
  const MAX_SIZE: nat := 0xFFFF_FFFF_FFFF_FFFF

  function FindColon(s: string): (r: nat)
    ensures r <= |s| && (forall i :: 0 <= i < r ==> s[i] != ':')
    ensures r < |s| ==> s[r] == ':'
  {
    if s == [] || s[0] == ':' then 0 else 1 + FindColon(s[1..])
  }

  datatype Header = NeedMore | Bad(error: Error) | Parsed(len: nat, size: nat)

  /** The checks on a header whose colon has not arrived yet. */
  function PartialHeader(max: nat, h: string): Header {
    if !AllDigits(h) then Bad(InvalidHeader)
    else if |h| > 1 && h[0] == '0' then Bad(LeadingZero)
    else if |h| > |Print(max)| then Bad(FrameTooLarge)
    else NeedMore
  }

  /** The checks on the text before the colon. */
  function CompleteHeader(max: nat, h: string): Header {
    if h == [] then Bad(InvalidHeader)
    else if !AllDigits(h) then Bad(InvalidHeader)
    else if |h| > 1 && h[0] == '0' then Bad(LeadingZero)
    else if Value(h) > MAX_SIZE then Bad(InvalidLength)
    else if Value(h) > max then Bad(FrameTooLarge)
    else Parsed(Value(h), |h| + 1)
  }

  function ParseHeader(max: nat, buf: string): Header {
    if FindColon(buf) == |buf| then PartialHeader(max, buf) else CompleteHeader(max, buf[..FindColon(buf)])
  }

  /** What a stream amounts to: its complete frames, the undecided rest, and an error if any. */
  datatype Decoded = Decoded(frames: seq<string>, rest: string, error: Option<Error>)

  function Prepend(fs: seq<string>, d: Decoded): Decoded { d.(frames := fs + d.frames) }

  /** One turn of the parser: a frame off the front, or a reason to stop. */
  datatype Turn = Stop(error: Option<Error>) | Frame(payload: string, rest: string)

  function TakeTurn(max: nat, buf: string): (r: Turn)
    ensures r.Frame? ==> |r.rest| < |buf|
  {
    match ParseHeader(max, buf)
    case NeedMore => Stop(None)
    case Bad(e) => Stop(Some(e))
    case Parsed(len, size) =>
      if |buf| < size + len + 1 then Stop(None)
      else if buf[size + len] != ',' then Stop(Some(MissingTerminator))
      else Frame(buf[size..size + len], buf[size + len + 1..])
  }

  function Decode(max: nat, buf: string): Decoded
    decreases |buf|
  {
    match TakeTurn(max, buf)
    case Stop(e) => Decoded([], buf, e)
    case Frame(payload, rest) => Prepend([payload], Decode(max, rest))
  }

  function Encode(payload: string): string { Print(|payload|) + ":" + payload + "," }

  function EncodeAll(payloads: seq<string>): string {
    if payloads == [] then [] else Encode(payloads[0]) + EncodeAll(payloads[1..])
  }

  lemma PrependTwice(a: seq<string>, b: seq<string>, d: Decoded)
    ensures Prepend(a, Prepend(b, d)) == Prepend(a + b, d)
  {
    assert a + (b + d.frames) == (a + b) + d.frames;
  }

  // ---------------------------------------------------------------- the decoder

  /** Nothing can be decided from what is buffered. */
  ghost predicate Settled(max: nat, buf: string) { Decode(max, buf) == Decoded([], buf, None) }

  class NetstringDecoder {
    const maxFrameBytes: nat
    const maxHeaderDigits: nat
    var buffer: string
    var frames: seq<string>
    var expectedLen: Option<nat>
    var headerBytes: nat

    /** The cached header, if any, is the header of the buffer. */
    ghost predicate Consistent()
      reads this
    {
      && maxHeaderDigits == |Print(maxFrameBytes)|
      && match expectedLen
         case None => headerBytes == 0
         case Some(len) => ParseHeader(maxFrameBytes, buffer) == Parsed(len, headerBytes)
    }

    ghost predicate Valid()
      reads this
    {
      Consistent() && Settled(maxFrameBytes, buffer)
    }

    constructor (maxFrameBytes: nat)
      ensures Valid() && this.maxFrameBytes == maxFrameBytes && buffer == "" && frames == []
    {
      this.maxFrameBytes := maxFrameBytes;
      var digits := CountDigits(maxFrameBytes);
      this.maxHeaderDigits := digits;
      buffer, frames, expectedLen, headerBytes := "", [], None, 0;
    }

    /** Takes in one read.  Frames and error are those of everything buffered plus the new
        bytes, and an error-free decoder holds a bounded amount of data. */
    method Feed(bytes: string) returns (error: Option<Error>)
      requires Valid()
      modifies this
      ensures var d := Decode(maxFrameBytes, old(buffer) + bytes);
              frames == old(frames) + d.frames && buffer == d.rest && error == d.error
      ensures error.None? ==> Valid() && |buffer| <= maxHeaderDigits + maxFrameBytes + 1
    {
      if bytes == "" {
        assert old(buffer) + bytes == buffer;
        SettledIsBounded(maxFrameBytes, buffer);
        return None;
      }
      buffer := buffer + bytes;
      HeaderStays(maxFrameBytes, old(buffer), bytes);
      error := ParseAvailable();
      if error.None? {
        SettledIsBounded(maxFrameBytes, buffer);
      }
    }

    /** The header at the front of the buffer. */
    method ReadHeader() returns (header: Header)
      requires Consistent()
      ensures header == ParseHeader(maxFrameBytes, buffer)
    {
      var colonPos := FindColon(buffer);
      if colonPos == |buffer| {
        if !AllDigits(buffer) {
          return Bad(InvalidHeader);
        }
        if |buffer| > 1 && buffer[0] == '0' {
          return Bad(LeadingZero);
        }
        if |buffer| > maxHeaderDigits {
          return Bad(FrameTooLarge);
        }
        return NeedMore;
      }
      if colonPos == 0 {
        return Bad(InvalidHeader);
      }
      var lenStr := buffer[..colonPos];
      if !AllDigits(lenStr) {
        return Bad(InvalidHeader);
      }
      if |lenStr| > 1 && lenStr[0] == '0' {
        return Bad(LeadingZero);
      }
      var declaredLen := Value(lenStr);
      if declaredLen > MAX_SIZE {
        return Bad(InvalidLength);
      }
      if declaredLen > maxFrameBytes {
        return Bad(FrameTooLarge);
      }
      return Parsed(declaredLen, colonPos + 1);
    }

    /** One pass of the parse loop; `done` when it returns, with its result. */
    method Turn() returns (done: bool, error: Option<Error>)
      requires Consistent()
      modifies this
      ensures Consistent()
      ensures match TakeTurn(maxFrameBytes, old(buffer))
              case Stop(e) => done && error == e && buffer == old(buffer) && frames == old(frames)
              case Frame(payload, rest) => !done && buffer == rest && frames == old(frames) + [payload]
    {
      if expectedLen.None? {
        if buffer == "" {
          return true, None;
        }
        var header := ReadHeader();
        if header.Bad? {
          return true, Some(header.error);
        }
        if header.NeedMore? {
          return true, None;
        }
        expectedLen := Some(header.len);
        headerBytes := header.size;
      }
      var needBytes := headerBytes + expectedLen.value + 1;
      if |buffer| < needBytes {
        return true, None;
      }
      if buffer[headerBytes + expectedLen.value] != ',' {
        return true, Some(MissingTerminator);
      }
      frames := frames + [buffer[headerBytes..headerBytes + expectedLen.value]];
      buffer := buffer[needBytes..];
      expectedLen := None;
      headerBytes := 0;
      return false, None;
    }

    method ParseAvailable() returns (error: Option<Error>)
      requires Consistent()
      modifies this
      ensures Consistent()
      ensures var d := Decode(maxFrameBytes, old(buffer));
              frames == old(frames) + d.frames && buffer == d.rest && error == d.error
      ensures error.None? ==> Settled(maxFrameBytes, buffer)
    {
      ghost var whole, added: seq<string> := Decode(maxFrameBytes, buffer), [];
      while true
        invariant Consistent() && frames == old(frames) + added
        invariant whole == Prepend(added, Decode(maxFrameBytes, buffer))
        decreases |buffer|
      {
        ghost var turn, before := TakeTurn(maxFrameBytes, buffer), buffer;
        var done;
        done, error := Turn();
        if done {
          return;
        }
        PrependTwice(added, [turn.payload], Decode(maxFrameBytes, turn.rest));
        added := added + [turn.payload];
      }
    }

    /** Hands over the oldest decoded frame. */
    method Pop() returns (frame: Option<string>)
      modifies this`frames
      ensures frame == if old(frames) == [] then None else Some(old(frames)[0])
      ensures frames == if old(frames) == [] then [] else old(frames)[1..]
    {
      if frames == [] {
        return None;
      }
      frame := Some(frames[0]);
      frames := frames[1..];
    }
  }

  // ---------------------------------------------------------------- cutting the stream

  lemma ColonStays(a: string, b: string)
    ensures FindColon(a) < |a| ==> FindColon(a + b) == FindColon(a)
    ensures FindColon(a) == |a| ==> FindColon(a + b) >= |a|
  {
    assert forall i :: 0 <= i < |a| ==> (a + b)[i] == a[i];
  }

  lemma LongIsBad(max: nat, h: string)
    requires |h| > |Print(max)|
    ensures PartialHeader(max, h).Bad? && CompleteHeader(max, h).Bad?
  {
    if Canonical(h) {
      TooManyDigits(h, max);
    }
  }

  /** A header refused before its colon stays refused, whatever its rest. */
  lemma PartialStaysBad(max: nat, a: string, h: string)
    requires a <= h && PartialHeader(max, a).Bad?
    ensures PartialHeader(max, h).Bad? && CompleteHeader(max, h).Bad?
  {
    if |a| > |Print(max)| {
      LongIsBad(max, h);
    } else if !AllDigits(a) {
      var i :| 0 <= i < |a| && !IsDigit(a[i]);
      assert !IsDigit(h[i]);
    } else {
      assert |a| > 1 && a[0] == '0' && h[0] == '0';
    }
  }

  /** More input never changes a parsed header and never repairs a bad one. */
  lemma HeaderStays(max: nat, a: string, b: string)
    ensures ParseHeader(max, a).Parsed? ==> ParseHeader(max, a + b) == ParseHeader(max, a)
    ensures ParseHeader(max, a).Bad? ==> ParseHeader(max, a + b).Bad?
  {
    ColonStays(a, b);
    var c, d := FindColon(a), FindColon(a + b);
    if c < |a| {
      assert (a + b)[..d] == a[..c];
    } else if PartialHeader(max, a).Bad? {
      assert a <= (a + b)[..d] && a <= a + b;
      PartialStaysBad(max, a, (a + b)[..d]);
      PartialStaysBad(max, a, a + b);
    }
  }

  lemma TurnStays(max: nat, a: string, b: string)
    ensures match TakeTurn(max, a)
            case Frame(payload, rest) => TakeTurn(max, a + b) == Frame(payload, rest + b)
            case Stop(Some(_)) => TakeTurn(max, a + b).Stop? && TakeTurn(max, a + b).error.Some?
            case Stop(None) => true
  {
    HeaderStays(max, a, b);
    var p := ParseHeader(max, a);
    if p.Parsed? && |a| > p.size + p.len {
      assert (a + b)[p.size + p.len] == a[p.size + p.len];
      assert (a + b)[p.size + p.len + 1..] == a[p.size + p.len + 1..] + b;
      assert (a + b)[p.size..p.size + p.len] == a[p.size..p.size + p.len];
    }
  }

  /** Decoding a stream is decoding its first part and going on from what that left. */
  lemma {:induction false} DecodeExtends(max: nat, a: string, b: string)
    ensures Decode(max, a).error.Some? ==>
              Decode(max, a + b).error.Some? && Decode(max, a + b).frames == Decode(max, a).frames
    ensures Decode(max, a).error.None? ==>
              Decode(max, a + b) == Prepend(Decode(max, a).frames, Decode(max, Decode(max, a).rest + b))
    decreases |a|
  {
    TurnStays(max, a, b);
    var turn := TakeTurn(max, a);
    if turn.Frame? {
      DecodeExtends(max, turn.rest, b);
      var d := Decode(max, turn.rest);
      PrependTwice([turn.payload], d.frames, Decode(max, d.rest + b));
    }
  }

  lemma HeaderIsShort(max: nat, h: string)
    requires CompleteHeader(max, h).Parsed?
    ensures |h| <= |Print(max)| && CompleteHeader(max, h).len <= max && CompleteHeader(max, h).size == |h| + 1
  {
    if |h| > |Print(max)| {
      TooManyDigits(h, max);
    }
  }

  lemma SettledStops(max: nat, buf: string)
    requires Settled(max, buf)
    ensures TakeTurn(max, buf) == Stop(None)
  {
  }

  lemma SettledIsBounded(max: nat, buf: string)
    requires Settled(max, buf)
    ensures |buf| <= |Print(max)| + max + 1
  {
    SettledStops(max, buf);
    if FindColon(buf) < |buf| {
      HeaderIsShort(max, buf[..FindColon(buf)]);
    }
  }

  function Join(chunks: seq<string>): string {
    if chunks == [] then "" else chunks[0] + Join(chunks[1..])
  }

  /** Reads arrive one after the other until the first error, which ends the session. */
  function FeedAll(max: nat, buf: string, chunks: seq<string>): Decoded
    decreases chunks
  {
    if chunks == [] then Decoded([], buf, None)
    else
      var d := Decode(max, buf + chunks[0]);
      if d.error.Some? then d else Prepend(d.frames, FeedAll(max, d.rest, chunks[1..]))
  }

  lemma {:induction false} RestIsSettled(max: nat, buf: string)
    requires Decode(max, buf).error.None?
    ensures Settled(max, Decode(max, buf).rest)
    decreases |buf|
  {
    var turn := TakeTurn(max, buf);
    if turn.Frame? {
      RestIsSettled(max, turn.rest);
    }
  }

  /** Frames, rest and whether there is an error do not depend on how the stream is cut. */
  lemma {:induction false} ChunkingIndependent(max: nat, buf: string, chunks: seq<string>)
    requires Settled(max, buf)
    ensures var cut, whole := FeedAll(max, buf, chunks), Decode(max, buf + Join(chunks));
            cut.frames == whole.frames && (cut.error.Some? <==> whole.error.Some?) &&
            (whole.error.None? ==> cut.rest == whole.rest)
    decreases chunks
  {
    if chunks == [] {
      assert buf + Join(chunks) == buf;
    } else {
      var first := buf + chunks[0];
      assert buf + Join(chunks) == first + Join(chunks[1..]);
      DecodeExtends(max, first, Join(chunks[1..]));
      if Decode(max, first).error.None? {
        RestIsSettled(max, first);
        ChunkingIndependent(max, Decode(max, first).rest, chunks[1..]);
      }
    }
  }

  // ---------------------------------------------------------------- encoder and decoder

  lemma EncodedHeader(max: nat, payload: string, tail: string)
    requires |payload| <= max && |payload| <= MAX_SIZE
    ensures ParseHeader(max, Encode(payload) + tail) == Parsed(|payload|, |Print(|payload|)| + 1)
  {
    var buf, n := Encode(payload) + tail, Print(|payload|);
    ValueOfPrint(|payload|);
    assert buf[|n|] == ':' && buf[..|n|] == n;
    forall i | 0 <= i < |n| ensures buf[i] != ':' {
      assert buf[i] == n[i] && IsDigit(n[i]);
    }
    assert FindColon(buf) == |n|;
  }

  lemma DecodeEncoded(max: nat, payload: string, tail: string)
    requires |payload| <= max && |payload| <= MAX_SIZE
    ensures Decode(max, Encode(payload) + tail) == Prepend([payload], Decode(max, tail))
  {
    var buf, n := Encode(payload) + tail, |Print(|payload|)| + 1;
    EncodedHeader(max, payload, tail);
    assert buf[n + |payload|] == ',';
    assert buf[n..n + |payload|] == payload;
    assert buf[n + |payload| + 1..] == tail;
    assert TakeTurn(max, buf) == Frame(payload, tail);
  }

  ghost predicate Fits(max: nat, payloads: seq<string>) {
    forall i :: 0 <= i < |payloads| ==> |payloads[i]| <= max && |payloads[i]| <= MAX_SIZE
  }

  lemma EncodeStep(max: nat, p: string, ps: seq<string>, tail: string, d: Decoded)
    requires |p| <= max && |p| <= MAX_SIZE && Decode(max, EncodeAll(ps) + tail) == Prepend(ps, d)
    ensures Decode(max, (Encode(p) + EncodeAll(ps)) + tail) == Prepend([p] + ps, d)
  {
    Associative(Encode(p), EncodeAll(ps), tail);
    DecodeEncoded(max, p, EncodeAll(ps) + tail);
    PrependTwice([p], ps, d);
  }

  lemma {:induction false} DecodeEncodeAll(max: nat, payloads: seq<string>, tail: string)
    requires Fits(max, payloads)
    ensures Decode(max, EncodeAll(payloads) + tail) == Prepend(payloads, Decode(max, tail))
  {
    if payloads == [] {
      assert EncodeAll(payloads) + tail == tail;
    } else {
      var p, ps := payloads[0], payloads[1..];
      DecodeEncodeAll(max, ps, tail);
      EncodeStep(max, p, ps, tail, Decode(max, tail));
      assert payloads == [p] + ps;
    }
  }

  /** However the encoding of a payload list is cut into reads, exactly those payloads come out. */
  lemma RoundTrip(max: nat, payloads: seq<string>, chunks: seq<string>)
    requires Fits(max, payloads) && Join(chunks) == EncodeAll(payloads)
    ensures FeedAll(max, "", chunks) == Decoded(payloads, "", None)
  {
    assert "" + Join(chunks) == EncodeAll(payloads) + "";
    DecodeEncodeAll(max, payloads, "");
    DecodeNothing(max);
    assert payloads + [] == payloads;
    ChunkingIndependent(max, "", chunks);
  }

  lemma DecodeNothing(max: nat)
    ensures Decode(max, "") == Decoded([], "", None)
  {
  }

  /** A proper beginning of an encoded frame decides nothing. */
  lemma PrefixIsSettled(max: nat, payload: string, k: nat)
    requires |payload| <= max && |payload| <= MAX_SIZE && k < |Encode(payload)|
    ensures Settled(max, Encode(payload)[..k])
  {
    var e := Encode(payload);
    var a, b := e[..k], e[k..];
    assert a + b == e && e + "" == e;
    EncodedHeader(max, payload, "");
    HeaderStays(max, a, b);
  }

  // ---------------------------------------------------------------- which error

  /** The text in front of the colon, or all there is. */
  function HeaderText(buf: string): string { buf[..FindColon(buf)] }

  function DigitPrefix(h: string): (g: string)
    ensures g <= h && AllDigits(g) && (|g| < |h| ==> !IsDigit(h[|g|]))
  {
    if h == [] || !IsDigit(h[0]) then [] else [h[0]] + DigitPrefix(h[1..])
  }

  /** Digits that are refused before any colon is seen. */
  predicate Refused(max: nat, g: string)
    requires AllDigits(g)
  {
    (|g| > 1 && g[0] == '0') || |g| > |Print(max)|
  }

  /** The digits a header begins with are refused by themselves, and the whole header is refused for
      another reason: a character that is no digit, or a number too large for the machine. */
  predicate Unstable(max: nat, buf: string) {
    var h := HeaderText(buf);
    var g := DigitPrefix(h);
    Refused(max, g) && (|g| < |h| || (FindColon(buf) < |buf| && g[0] != '0' && Value(g) > MAX_SIZE))
  }

  lemma RefusedCode(max: nat, g: string)
    requires AllDigits(g)
    ensures FindColon(g) == |g|
    ensures TakeTurn(max, g) == Stop(if !Refused(max, g) then None
                                     else Some(if g[0] == '0' && |g| > 1 then LeadingZero else FrameTooLarge))
  {
  }

  /** The code of an unstable header is not the one its digits alone would get. */
  lemma UnstableCode(max: nat, r: string)
    requires Unstable(max, r)
    ensures var g := DigitPrefix(HeaderText(r));
            && TakeTurn(max, g).Stop? && TakeTurn(max, g).error.Some?
            && TakeTurn(max, r).Stop? && TakeTurn(max, r).error.Some?
            && TakeTurn(max, r).error != TakeTurn(max, g).error
  {
    var h := HeaderText(r);
    var g := DigitPrefix(h);
    RefusedCode(max, g);
    if |g| < |h| {
      assert !AllDigits(h) && h != [];
      assert FindColon(r) == |r| ==> h == r;
    } else {
      assert g == h;
    }
  }

  /** A beginning of a header that is refused before its colon, in a buffer that is not unstable. */
  lemma PartialCode(max: nat, p: string, r: string)
    requires p <= HeaderText(r) && !Unstable(max, r) && PartialHeader(max, p).Bad?
    ensures ParseHeader(max, r) == PartialHeader(max, p)
  {
    var h := HeaderText(r);
    var g := DigitPrefix(h);
    if |p| > |g| {
      assert !IsDigit(h[|g|]) && p[|g|] == h[|g|];
      assert FindColon(r) == |r| ==> h == r;
    } else {
      assert AllDigits(p) && p <= g;
      assert Refused(max, g);
      assert g == h;
      assert FindColon(r) == |r| ==> h == r;
      if g[0] != '0' && FindColon(r) < |r| {
        TooManyDigits(g, max);
      }
    }
  }

  /** In a buffer that is not unstable every refused beginning is refused for the same reason. */
  lemma PrefixCode(max: nat, p: string, r: string)
    requires p <= r && !Unstable(max, r) && TakeTurn(max, p).Stop? && TakeTurn(max, p).error.Some?
    ensures TakeTurn(max, r) == TakeTurn(max, p)
  {
    assert r == p + r[|p|..];
    ColonStays(p, r[|p|..]);
    HeaderStays(max, p, r[|p|..]);
    if FindColon(p) == |p| {
      PartialCode(max, p, r);
    } else {
      assert HeaderText(p) == HeaderText(r);
    }
  }

  /** Where decoding stops: the rest is refused, or waits, by itself. */
  lemma {:induction false} StopsAtRest(max: nat, s: string)
    ensures TakeTurn(max, Decode(max, s).rest) == Stop(Decode(max, s).error)
    decreases |s|
  {
    var turn := TakeTurn(max, s);
    if turn.Frame? {
      StopsAtRest(max, turn.rest);
    }
  }

  lemma {:induction false} ErrorRest(max: nat, a: string, b: string)
    requires Decode(max, a).error.Some?
    ensures Decode(max, a + b).rest == Decode(max, a).rest + b
    decreases |a|
  {
    TurnStays(max, a, b);
    var turn := TakeTurn(max, a);
    if turn.Frame? {
      ErrorRest(max, turn.rest, b);
    }
  }

  /** However a stream is cut, one that does not end in an unstable header fails with one code. */
  lemma {:induction false} StableCode(max: nat, buf: string, chunks: seq<string>)
    requires Settled(max, buf) && !Unstable(max, Decode(max, buf + Join(chunks)).rest)
    ensures FeedAll(max, buf, chunks).error == Decode(max, buf + Join(chunks)).error
    decreases chunks
  {
    if chunks == [] {
      assert buf + Join(chunks) == buf;
    } else {
      var first, later := buf + chunks[0], Join(chunks[1..]);
      assert buf + Join(chunks) == first + later;
      DecodeExtends(max, first, later);
      if Decode(max, first).error.None? {
        RestIsSettled(max, first);
        StableCode(max, Decode(max, first).rest, chunks[1..]);
      } else {
        ErrorRest(max, first, later);
        StopsAtRest(max, first);
        StopsAtRest(max, first + later);
        PrefixCode(max, Decode(max, first).rest, Decode(max, first + later).rest);
      }
    }
  }

  /** A frame at the front of a buffer is the same frame whatever follows it. */
  lemma FrameAlone(max: nat, s: string) returns (f: string)
    requires TakeTurn(max, s).Frame?
    ensures s == f + TakeTurn(max, s).rest && TakeTurn(max, f) == Frame(TakeTurn(max, s).payload, "")
  {
    var turn := TakeTurn(max, s);
    var p, n := ParseHeader(max, s), |s| - |turn.rest|;
    f := s[..n];
    ColonStays(f, s[n..]);
    assert s == f + s[n..];
    assert f[..FindColon(f)] == s[..FindColon(s)];
    assert f[p.size..p.size + p.len] == s[p.size..p.size + p.len] && f[n..] == "";
  }

  lemma DecodeFrame(max: nat, f: string, payload: string, x: string)
    requires TakeTurn(max, f) == Frame(payload, "")
    ensures Decode(max, f + x) == Prepend([payload], Decode(max, x))
  {
    TurnStays(max, f, x);
    assert "" + x == x;
  }

  /** What has been decoded is decoded the same way in front of anything else. */
  lemma Associative(a: string, b: string, c: string)
    ensures (a + b) + c == a + (b + c)
  {
  }

  lemma FrontStep(max: nat, f: string, payload: string, later: string, x: string, frames: seq<string>)
    requires TakeTurn(max, f) == Frame(payload, "") && Decode(max, later + x) == Prepend(frames, Decode(max, x))
    ensures Decode(max, (f + later) + x) == Prepend([payload] + frames, Decode(max, x))
  {
    Associative(f, later, x);
    DecodeFrame(max, f, payload, later + x);
    PrependTwice([payload], frames, Decode(max, x));
  }

  lemma NoFront(d: Decoded, x: string)
    ensures Prepend([], d) == d && "" + x == x
  {
  }

  lemma FramesOf(max: nat, s: string)
    requires TakeTurn(max, s).Frame?
    ensures var turn := TakeTurn(max, s); var d := Decode(max, turn.rest);
            Decode(max, s).frames == [turn.payload] + d.frames && Decode(max, s).rest == d.rest
  {
  }

  lemma {:induction false} DecodedFront(max: nat, s: string, x: string) returns (front: string)
    ensures s == front + Decode(max, s).rest
    ensures Decode(max, front + x) == Prepend(Decode(max, s).frames, Decode(max, x))
    decreases |s|
  {
    var turn := TakeTurn(max, s);
    if turn.Frame? {
      var f := FrameAlone(max, s);
      FramesOf(max, s);
      var later := DecodedFront(max, turn.rest, x);
      FrontStep(max, f, turn.payload, later, x, Decode(max, turn.rest).frames);
      front := f + later;
    } else {
      NoFront(Decode(max, x), x);
      NoFront(Decode(max, x), s);
      front := "";
    }
  }

  lemma JoinTwo(a: string, b: string)
    ensures Join([a, b]) == a + b
  {
    assert [a, b][1..] == [b] && Join([b]) == b + Join([]);
  }

  lemma FirstFails(max: nat, a: string, b: string)
    requires Decode(max, a).error.Some?
    ensures FeedAll(max, "", [a, b]).error == Decode(max, a).error
  {
    assert "" + a == a;
  }

  /** A cut that gives an unstable header away: just behind its digits. */
  lemma UnstableCut(max: nat, s: string) returns (chunks: seq<string>)
    requires Unstable(max, Decode(max, s).rest)
    ensures Join(chunks) == s && FeedAll(max, "", chunks).error != Decode(max, s).error
  {
    var rest := Decode(max, s).rest;
    var g, tail := DigitsAndTail(rest);
    UnstableCode(max, rest);
    StopsAtRest(max, s);
    var front := DecodedFront(max, s, g);
    CodeOfFront(max, s, front, g);
    Associative(front, g, tail);
    JoinTwo(front + g, tail);
    FirstFails(max, front + g, tail);
    chunks := [front + g, tail];
  }

  lemma DigitsAndTail(rest: string) returns (g: string, tail: string)
    ensures g == DigitPrefix(HeaderText(rest)) && rest == g + tail
  {
    g := DigitPrefix(HeaderText(rest));
    tail := rest[|g|..];
  }

  lemma CodeOfFront(max: nat, s: string, front: string, g: string)
    requires Decode(max, front + g) == Prepend(Decode(max, s).frames, Decode(max, g)) && TakeTurn(max, g).Stop?
    ensures Decode(max, front + g).error == TakeTurn(max, g).error
  {
  }

  /** The error code is the same for all ways of cutting a stream exactly when decoding does not stop
      at an unstable header. */
  lemma CodeIsStable(max: nat, s: string)
    ensures (forall chunks | Join(chunks) == s :: FeedAll(max, "", chunks).error == Decode(max, s).error)
      <==> !Unstable(max, Decode(max, s).rest)
  {
    if Unstable(max, Decode(max, s).rest) {
      var chunks := UnstableCut(max, s);
    } else {
      DecodeNothing(max);
      forall chunks | Join(chunks) == s ensures FeedAll(max, "", chunks).error == Decode(max, s).error {
        assert "" + Join(chunks) == s;
        StableCode(max, "", chunks);
      }
    }
  }

  /** A length is refused as unreadable exactly when it does not fit 64 bits, and as too large exactly when it
      does but exceeds the limit. */
  lemma LengthCode(max: nat, h: string)
    requires Canonical(h)
    ensures CompleteHeader(max, h) == Bad(InvalidLength) <==> Value(h) > 18446744073709551615
    ensures CompleteHeader(max, h) == Bad(FrameTooLarge) <==> max < Value(h) <= 18446744073709551615
  {
  }

  /** Inputs whose error code depends on the cut: a numeral that is too long and too large ... */
  lemma ErrorCodeDependsOnCut(max: nat, h: string)
    requires Canonical(h) && Value(h) > MAX_SIZE && |h| > |Print(max)|
    ensures Decode(max, h + ":").error == Some(InvalidLength)
    ensures FeedAll(max, "", [h, ":"]).error == Some(FrameTooLarge)
  {
    assert FindColon(h + ":") == |h| by {
      assert forall i :: 0 <= i < |h| ==> (h + ":")[i] == h[i] && IsDigit(h[i]);
      assert (h + ":")[|h|] == ':';
    }
    assert (h + ":")[..|h|] == h;
    assert "" + h == h;
    assert FindColon(h) == |h|;
  }

  lemma WrongCharacterHeader(g: string)
    requires AllDigits(g)
    ensures var s := g + "a:"; FindColon(s) == |g| + 1 < |s| && !AllDigits(s[..|g| + 1])
  {
    var s := g + "a:";
    assert forall i :: 0 <= i < |g| ==> s[i] == g[i] && IsDigit(g[i]);
    assert s[|g|] == 'a' && s[|g| + 1] == ':' && s[..|g| + 1][|g|] == 'a';
  }

  /** ... and digits that are refused before the wrong character behind them is seen. */
  lemma WrongCharacterCut(max: nat, g: string)
    requires AllDigits(g) && Refused(max, g)
    ensures Decode(max, g + "a:").error == Some(InvalidHeader)
    ensures FeedAll(max, "", [g, "a:"]).error in {Some(LeadingZero), Some(FrameTooLarge)}
  {
    RefusedCode(max, g);
    FirstFails(max, g, "a:");
    WrongCharacterHeader(g);
  }

  // ---------------------------------------------------------------- what a session carries out

  /** A session reads a burst of chunks until the socket has no more, and only then hands over the
      frames; a framing error ends it at once. These are the frames it hands over ... */
  function Served(max: nat, buf: string, bursts: seq<seq<string>>): seq<string>
    decreases bursts
  {
    if bursts == [] then [] else
    var d := FeedAll(max, buf, bursts[0]);
    if d.error.Some? then [] else d.frames + Served(max, d.rest, bursts[1..])
  }

  /** ... and these, complete but in the burst with the error, it never does. */
  function Lost(max: nat, buf: string, bursts: seq<seq<string>>): seq<string>
    decreases bursts
  {
    if bursts == [] then [] else
    var d := FeedAll(max, buf, bursts[0]);
    if d.error.Some? then d.frames else Lost(max, d.rest, bursts[1..])
  }

  function JoinBursts(bursts: seq<seq<string>>): string {
    if bursts == [] then "" else Join(bursts[0]) + JoinBursts(bursts[1..])
  }

  /** Every frame of a stream is either handed over or lost with the error, so what a session carries
      out depends on the reads only through the burst in which an error falls. */
  lemma {:induction false} ServedOrLost(max: nat, buf: string, bursts: seq<seq<string>>)
    requires Settled(max, buf)
    ensures Decode(max, buf + JoinBursts(bursts)).frames == Served(max, buf, bursts) + Lost(max, buf, bursts)
    ensures Decode(max, buf + JoinBursts(bursts)).error.None? ==> Lost(max, buf, bursts) == []
    decreases bursts
  {
    if bursts == [] {
      assert buf + JoinBursts(bursts) == buf;
    } else {
      var d, later := FeedAll(max, buf, bursts[0]), JoinBursts(bursts[1..]);
      OneBurst(max, buf, bursts[0], later);
      if d.error.None? {
        ServedOrLost(max, d.rest, bursts[1..]);
        Regroup(d.frames, Served(max, d.rest, bursts[1..]), Lost(max, d.rest, bursts[1..]));
      } else {
        Regroup([], [], d.frames);
      }
    }
  }

  lemma Regroup(a: seq<string>, b: seq<string>, c: seq<string>)
    ensures a + (b + c) == (a + b) + c && [] + c == c
  {
  }

  lemma OneBurst(max: nat, buf: string, burst: seq<string>, later: string)
    requires Settled(max, buf)
    ensures var d, whole := FeedAll(max, buf, burst), Decode(max, buf + (Join(burst) + later));
            && (d.error.Some? ==> whole.error.Some? && whole.frames == d.frames)
            && (d.error.None? ==> Settled(max, d.rest) && whole == Prepend(d.frames, Decode(max, d.rest + later)))
  {
    var first := buf + Join(burst);
    Associative(buf, Join(burst), later);
    ChunkingIndependent(max, buf, burst);
    DecodeExtends(max, first, later);
    if Decode(max, first).error.None? {
      RestIsSettled(max, first);
    }
  }

  lemma OneRead(max: nat, s: string)
    requires Decode(max, s).error.Some?
    ensures JoinBursts([[s]]) == s && Served(max, "", [[s]]) == []
  {
    assert [[s]][1..] == [] && [s][1..] == [] && Join([s]) == s + Join([]) && "" + s == s;
  }

  /** A session carries out every frame of a stream, however it is read, exactly when the stream has no
      error or no frame in front of it. */
  lemma NothingIsLost(max: nat, s: string)
    ensures (forall bursts | JoinBursts(bursts) == s :: Served(max, "", bursts) == Decode(max, s).frames)
      <==> Decode(max, s).error.None? || Decode(max, s).frames == []
  {
    if Decode(max, s).error.None? || Decode(max, s).frames == [] {
      DecodeNothing(max);
      forall bursts | JoinBursts(bursts) == s ensures Served(max, "", bursts) == Decode(max, s).frames {
        assert "" + JoinBursts(bursts) == s;
        ServedOrLost(max, "", bursts);
      }
    } else {
      OneRead(max, s);
    }
  }
}
