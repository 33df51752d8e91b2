/** The monitor event stream: monitor_event in socket_base.cpp writes each event as
    two frames, monitorEvent in 3186/monitor.cpp reads them back. */
module MonitorFrames {

  type Byte = b: int | 0 <= b < 256

  /** Byte order of the host; writer and reader share the process. */
  datatype Host = Little | Big

  datatype Frame = Frame(data: seq<Byte>, more: bool)

  datatype Event = Event(code: int, value: int, addr: seq<Byte>)

  datatype ReadResult =
    | Got(event: Event)
    | Interrupted          // a frame could not be received
    | AssertFailed         // a more-flag assert fired
    | Overrun              // the frame does not fit what the reader assumes

  const MAX_ENDPOINT := 256   // ZMQ_MAX_ENDPOINT_LENGTH

  // ---- casts of the source

  function U16(x: int): int { x % 0x1_0000 }

  function U32(x: int): int { x % 0x1_0000_0000 }

  function I32(u: int): int { if u < 0x8000_0000 then u else u - 0x1_0000_0000 }

  // ---- memory images of the two integers

  function Bytes2(h: Host, u: int): (r: seq<Byte>)
    requires 0 <= u < 0x1_0000
    ensures |r| == 2
  {
    var lo, hi := u % 256, u / 256;
    if h == Little then [lo, hi] else [hi, lo]
  }

  function Bytes4(h: Host, u: int): (r: seq<Byte>)
    requires 0 <= u < 0x1_0000_0000
    ensures |r| == 4
  {
    var lo, hi := Bytes2(h, u % 0x1_0000), Bytes2(h, u / 0x1_0000);
    if h == Little then lo + hi else hi + lo
  }

  function Value2(h: Host, s: seq<Byte>): int
    requires |s| == 2
  {
    if h == Little then (s[0] as int) + 256 * (s[1] as int) else (s[1] as int) + 256 * (s[0] as int)
  }

  function Value4(h: Host, s: seq<Byte>): int
    requires |s| == 4
  {
    var (lo, hi) := if h == Little then (s[..2], s[2..]) else (s[2..], s[..2]);
    Value2(h, lo) + 0x1_0000 * Value2(h, hi)
  }

  // ---- writer

  function Write(h: Host, e: Event): seq<Frame> {
    [Frame(Bytes2(h, U16(e.code)) + Bytes4(h, U32(e.value)), true), Frame(e.addr, false)]
  }

  function WriteAll(h: Host, es: seq<Event>): seq<Frame> {
    if es == [] then [] else Write(h, es[0]) + WriteAll(h, es[1..])
  }

  // ---- reader

  /** What "%s" prints of a buffer: the bytes before the first NUL. */
  function CString(s: seq<Byte>): seq<Byte> {
    if s == [] || s[0] == 0 then [] else [s[0]] + CString(s[1..])
  }

  function Read(h: Host, frames: seq<Frame>): ReadResult {
    if frames == [] then Interrupted
    else if !frames[0].more then AssertFailed
    else if |frames[0].data| < 6 then Overrun
    else if |frames| < 2 then Interrupted
    else if frames[1].more then AssertFailed
    else if |frames[1].data| > MAX_ENDPOINT then Overrun
    else
      var d := frames[0].data;
      Got(Event(Value2(h, d[..2]), I32(Value4(h, d[2..6])), CString(frames[1].data)))
  }

  /** The listener's loop: every event, or None as soon as one read goes wrong. */
  datatype Listing = Broken | Listed(events: seq<Event>)

  function ReadAll(h: Host, frames: seq<Frame>): Listing
    decreases |frames|
  {
    if frames == [] then Listed([]) else
      var r := Read(h, frames);
      if !r.Got? then Broken else
        var rest := ReadAll(h, frames[2..]);
        if rest.Broken? then Broken else Listed([r.event] + rest.events)
  }

  /** The events the two-frame format can carry. */
  ghost predicate Carried(e: Event) {
    && 0 <= e.code < 0x1_0000
    && -0x8000_0000 <= e.value < 0x8000_0000
    && |e.addr| <= MAX_ENDPOINT
    && 0 !in e.addr
  }

  lemma FourBytes(h: Host, u: int)
    requires 0 <= u < 0x1_0000_0000
    ensures Value4(h, Bytes4(h, u)) == u
  {
    var s := Bytes4(h, u);
    var lo, hi := Bytes2(h, u % 0x1_0000), Bytes2(h, u / 0x1_0000);
    assert s[..2] == if h == Little then lo else hi;
    assert s[2..] == if h == Little then hi else lo;
  }

  lemma {:induction false} CStringIdentity(s: seq<Byte>)
    ensures CString(s) == s <==> 0 !in s
  {
    if s != [] {
      assert s == [s[0]] + s[1..];
      CStringIdentity(s[1..]);
      if s[0] != 0 && CString(s) == s {
        assert CString(s)[1..] == CString(s[1..]);
      }
    }
  }

  // ---- the bytes

  /** The number whose bytes in memory are these. */
  function Number(h: Host, s: seq<Byte>): nat {
    if s == [] then 0
    else if h == Little then s[0] + 256 * Number(h, s[1..])
    else s[|s| - 1] + 256 * Number(h, s[..|s| - 1])
  }

  lemma TwoBytes(h: Host, u: int)
    requires 0 <= u < 0x1_0000
    ensures Number(h, Bytes2(h, u)) == u
  {
    var s := Bytes2(h, u);
    assert Number(h, s[1..]) == s[1] && Number(h, s[..1]) == s[0] by {
      assert s[1..][1..] == [] && s[1..][..0] == [] && s[..1][..0] == [] && s[..1][1..] == [];
    }
  }

  lemma {:induction false} NumberParts(h: Host, a: seq<Byte>, b: seq<Byte>)
    requires |a| == |b| == 2
    ensures Number(h, a + b) == if h == Little then Number(h, a) + 0x1_0000 * Number(h, b) else Number(h, b) + 0x1_0000 * Number(h, a)
  {
    var s := a + b;
    if h == Little {
      var t := s[1..];
      assert t == [a[1]] + b && t[1..] == b && t[0] == a[1] && s[0] == a[0];
      assert Number(h, t) == a[1] + 256 * Number(h, b);
      assert a[1..] == [a[1]] && a[1..][1..] == [];
      assert Number(h, a[1..]) == a[1];
    } else {
      var t := s[..3];
      assert t == a + [b[0]] && t[..2] == a && t[2] == b[0] && s[3] == b[1];
      assert Number(h, t) == b[0] + 256 * Number(h, a);
      assert b[..1] == [b[0]] && b[..1][..0] == [];
      assert Number(h, b[..1]) == b[0];
    }
  }

  /** The format, byte by byte: one frame of six bytes, the code in the first two and the
      value in the other four, in the host's order; more to come; then the address, the
      last frame. */
  lemma FrameLayout(h: Host, e: Event)
    ensures var f := Write(h, e);
            && |f| == 2 && f[0].more && !f[1].more && f[1].data == e.addr
            && |f[0].data| == 6
            && Number(h, f[0].data[..2]) == e.code % 0x1_0000 && Number(h, f[0].data[2..]) == e.value % 0x1_0000_0000
  {
    var u := U32(e.value);
    var d := Write(h, e)[0].data;
    assert d[..2] == Bytes2(h, U16(e.code)) && d[2..] == Bytes4(h, u);
    TwoBytes(h, U16(e.code));
    TwoBytes(h, u % 0x1_0000);
    TwoBytes(h, u / 0x1_0000);
    var lo, hi := Bytes2(h, u % 0x1_0000), Bytes2(h, u / 0x1_0000);
    NumberParts(h, if h == Little then lo else hi, if h == Little then hi else lo);
  }

  /** What is read of an event that does not fit: the code and the value wrap around, the
      address ends at its first NUL. */
  ghost predicate Truncated(e: Event, r: Event) {
    && 0 <= r.code < 0x1_0000 && (r.code - e.code) % 0x1_0000 == 0
    && -0x8000_0000 <= r.value < 0x8000_0000 && (r.value - e.value) % 0x1_0000_0000 == 0
    && r.addr <= e.addr && 0 !in r.addr && (|r.addr| < |e.addr| ==> e.addr[|r.addr|] == 0)
  }

  lemma {:induction false} CStringEnds(s: seq<Byte>)
    ensures var t := CString(s); t <= s && 0 !in t && (|t| < |s| ==> s[|t|] == 0)
  {
    if s != [] && s[0] != 0 {
      CStringEnds(s[1..]);
      assert s == [s[0]] + s[1..];
    }
  }

  lemma Wraps(e: Event)
    ensures (U16(e.code) - e.code) % 0x1_0000 == 0
    ensures (I32(U32(e.value)) - e.value) % 0x1_0000_0000 == 0
  {
    assert e.code == 0x1_0000 * (e.code / 0x1_0000) + U16(e.code);
    assert e.value == 0x1_0000_0000 * (e.value / 0x1_0000_0000) + U32(e.value);
  }

  /** Whatever event is written, it is read iff its address fits the buffer. */
  lemma EventReadBack(h: Host, e: Event, rest: seq<Frame>)
    ensures var r := Read(h, Write(h, e) + rest);
            if |e.addr| <= MAX_ENDPOINT then r.Got? && Truncated(e, r.event) else r == Overrun
  {
    var d := Bytes2(h, U16(e.code)) + Bytes4(h, U32(e.value));
    assert d[..2] == Bytes2(h, U16(e.code));
    assert d[2..6] == Bytes4(h, U32(e.value));
    FourBytes(h, U32(e.value));
    CStringEnds(e.addr);
    Wraps(e);
  }

  /** One event: never an assert failure, and read back equal iff it is carried. */
  lemma EventRoundTrip(h: Host, e: Event, rest: seq<Frame>)
    ensures var r := Read(h, Write(h, e) + rest);
            && !r.AssertFailed? && !r.Interrupted?
            && (r == Got(e) <==> Carried(e))
  {
    var d := Bytes2(h, U16(e.code)) + Bytes4(h, U32(e.value));
    assert d[..2] == Bytes2(h, U16(e.code));
    assert d[2..6] == Bytes4(h, U32(e.value));
    FourBytes(h, U32(e.value));
    CStringIdentity(e.addr);
    IntCast(e.value);
  }

  /** (int)(uint32_t)v is v exactly on the range of int. */
  lemma IntCast(v: int)
    ensures I32(U32(v)) == v <==> -0x8000_0000 <= v < 0x8000_0000
  {
  }

  /** Whatever frames come: an event is read iff a first frame of six bytes or more, that
      announces another, is followed by one of an address's size, that does not; an assert
      fires iff the first announces nothing, or the second -- the first being long enough
      to be looked at -- does. */
  lemma ReadsIff(h: Host, frames: seq<Frame>)
    ensures Read(h, frames).Got? <==> |frames| >= 2 && frames[0].more && !frames[1].more && |frames[0].data| >= 6 && |frames[1].data| <= MAX_ENDPOINT
    ensures Read(h, frames).AssertFailed? <==> |frames| >= 1 && (!frames[0].more || (|frames| >= 2 && |frames[0].data| >= 6 && frames[1].more))
  {
  }

  /** The stream: any list of events is read back equal iff every one is carried. */
  lemma {:induction false} StreamRoundTrip(h: Host, es: seq<Event>)
    ensures ReadAll(h, WriteAll(h, es)) == Listed(es) <==> forall i :: 0 <= i < |es| ==> Carried(es[i])
  {
    if es != [] {
      var rest := WriteAll(h, es[1..]);
      var frames := Write(h, es[0]) + rest;
      assert WriteAll(h, es) == frames && frames[2..] == rest;
      EventRoundTrip(h, es[0], rest);
      StreamRoundTrip(h, es[1..]);
      assert es == [es[0]] + es[1..];
      var r, tail := Read(h, frames), ReadAll(h, rest);
      if ReadAll(h, frames) == Listed(es) {
        assert ([r.event] + tail.events)[0] == es[0] && ([r.event] + tail.events)[1..] == tail.events;
        forall i | 0 <= i < |es| ensures Carried(es[i]) {
          if i > 0 {
            assert es[i] == es[1..][i - 1];
          }
        }
      }
    }
  }

  /** Two lists the stream can carry are told apart by their bytes. */
  lemma StreamInjective(h: Host, es: seq<Event>, fs: seq<Event>)
    requires forall i :: 0 <= i < |es| ==> Carried(es[i])
    requires forall i :: 0 <= i < |fs| ==> Carried(fs[i])
    requires WriteAll(h, es) == WriteAll(h, fs)
    ensures es == fs
  {
    StreamRoundTrip(h, es);
    StreamRoundTrip(h, fs);
  }

  /** The address: copied into a zeroed 257-byte buffer, printed up to the terminator. */
  method CopyAndPrint(data: seq<Byte>) returns (text: seq<Byte>)
    requires |data| <= MAX_ENDPOINT
    ensures text == CString(data)
  {
    var endpoint := new Byte[MAX_ENDPOINT + 1](_ => 0);
    var i, size := 0, |data|;
    while i < size
      invariant i <= size
      invariant endpoint[..i] == data[..i]
      invariant forall k :: i <= k < endpoint.Length ==> endpoint[k] == 0
    {
      endpoint[i] := data[i];
      i := i + 1;
    }
    assert endpoint[..] == data + endpoint[size..];
    CStringPadded(data, endpoint[size..]);
    text := [];
    i := 0;
    while endpoint[i] != 0
      invariant i <= size
      invariant text + CString(endpoint[i..]) == CString(data)
      decreases size - i
    {
      assert endpoint[i..][1..] == endpoint[i + 1..];
      text := text + [endpoint[i]];
      i := i + 1;
    }
  }

  /** monitorEvent: two receives, each followed by its more-flag assert. */
  method MonitorEvent(h: Host, frames: seq<Frame>) returns (r: ReadResult, rest: seq<Frame>)
    ensures r == Read(h, frames)
    ensures r.Got? ==> rest == frames[2..]
  {
    rest := frames;
    if rest == [] {
      return Interrupted, rest;
    }
    var msg := rest[0];
    rest := rest[1..];
    if !msg.more {
      return AssertFailed, rest;
    }
    if |msg.data| < 6 {
      return Overrun, rest;
    }
    var event := Value2(h, msg.data[..2]);
    var value := I32(Value4(h, msg.data[2..6]));
    if rest == [] {
      return Interrupted, rest;
    }
    msg := rest[0];
    rest := rest[1..];
    if msg.more {
      return AssertFailed, rest;
    }
    var size := |msg.data|;
    if size > MAX_ENDPOINT {
      return Overrun, rest;
    }
    var text := CopyAndPrint(msg.data);
    assert frames[2..] == rest;
    r := Got(Event(event, value, text));
  }

  lemma {:induction false} CStringPadded(s: seq<Byte>, zeros: seq<Byte>)
    requires zeros != [] && zeros[0] == 0
    ensures CString(s + zeros) == CString(s)
  {
    if s != [] {
      assert (s + zeros)[1..] == s[1..] + zeros;
      CStringPadded(s[1..], zeros);
    } else {
      assert s + zeros == zeros;
    }
  }
}
