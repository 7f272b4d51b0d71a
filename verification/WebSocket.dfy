/** WebSocket framing and the echo loop of the realtime origin: sections 5.2 and
    5.3 of RFC 6455, as far as the loop follows them. */
module WebSocket {
  import opened Wrappers
  import opened Bytes
  import opened Lists

  const TEXT: byte := 0x1
  const CLOSE: byte := 0x8
  const PING: byte := 0x9
  const PONG: byte := 0xA

  /** One more than the longest payload a frame may say. */
  const LENGTHS: nat := 0x1_0000_0000_0000_0000

  datatype Frame = Frame(opcode: byte, payload: seq<byte>)

  /** Unpacking a number from too few bytes. */
  datatype Error = TooShort

  lemma Powers()
    ensures Power256(2) == 65536 && Power256(8) == LENGTHS
  {
    FourBytes();
    assert Power256(8) == 256 * (256 * (256 * (256 * Power256(4))));
  }

  // ------------------------------------------------------------- masking

  /** Each byte with its byte of the key. */
  function Masked(payload: seq<byte>, key: seq<byte>): seq<byte>
    requires payload == [] || |key| == 4
  {
    seq(|payload|, i requires 0 <= i < |payload| => Xor(payload[i], key[i % 4]))
  }

  /** Byte by byte, in turn with the key's: section 5.3 of RFC 6455. */
  lemma MaskedIs(payload: seq<byte>, key: seq<byte>)
    requires |key| == 4
    ensures var masked := Masked(payload, key);
            && |masked| == |payload|
            && (forall i | 0 <= i < |payload| && i % 4 == 0 :: masked[i] == Xor(payload[i], key[0]))
            && (forall i | 0 <= i < |payload| && i % 4 == 1 :: masked[i] == Xor(payload[i], key[1]))
            && (forall i | 0 <= i < |payload| && i % 4 == 2 :: masked[i] == Xor(payload[i], key[2]))
            && (forall i | 0 <= i < |payload| && i % 4 == 3 :: masked[i] == Xor(payload[i], key[3]))
  {
  }

  const NO_KEY: seq<byte> := [0, 0, 0, 0]

  lemma MaskedTwice(payload: seq<byte>, key: seq<byte>)
    requires |key| == 4
    ensures Masked(Masked(payload, key), key) == payload && Masked(payload, NO_KEY) == payload
  {
    var masked := Masked(payload, key);
    forall i | 0 <= i < |payload|
      ensures Masked(masked, key)[i] == payload[i] && Masked(payload, NO_KEY)[i] == payload[i]
    {
      XorTwice(payload[i], key[i % 4]);
    }
  }

  // ------------------------------------------------------------- frames as bytes

  /** How a frame's length is written: in seven bits, in 16, or in 64. */
  datatype Form = Short | Medium | Long

  function Capacity(form: Form): nat {
    match form case Short => 126 case Medium => 65536 case Long => LENGTHS
  }

  function LengthBytes(form: Form, n: nat): seq<byte> {
    match form case Short => [] case Medium => Pack(n, 2) case Long => Pack(n, 8)
  }

  function LengthCode(form: Form, n: nat): nat
    requires n < Capacity(form)
  {
    match form case Short => n case Medium => 126 case Long => 127
  }

  /** A frame as a peer may write it: any first byte, masked or not, its length
      in any form that holds it. */
  datatype Wire = Wire(first: byte, key: Option<seq<byte>>, form: Form, payload: seq<byte>) {
    predicate Valid() {
      |payload| < Capacity(form) && (key.Some? ==> |key.value| == 4)
    }

    function Second(): byte
      requires Valid()
    {
      (if key.Some? then 0x80 else 0) + LengthCode(form, |payload|) as byte
    }

    function Head(): seq<byte>
      requires Valid()
    {
      [first, Second()] + LengthBytes(form, |payload|)
    }

    function Tail(): seq<byte>
      requires Valid()
    {
      if key.Some? then key.value + Masked(payload, key.value) else payload
    }

    function Bytes(): seq<byte>
      requires Valid()
    {
      Head() + Tail()
    }

    /** What it says, its final bit and reserved bits aside. */
    function Says(): Frame {
      Frame(first % 16, payload)
    }
  }

  /** The shortest form that holds a payload of `n` bytes. */
  function FormFor(n: nat): Form {
    if n < 126 then Short else if n < 65536 then Medium else Long
  }

  /** A frame as this origin writes it: final, not masked, in the shortest form. */
  function Sent(frame: Frame): Wire
    requires Sendable(frame)
  {
    Wire(0x80 + frame.opcode, None, FormFor(|frame.payload|), frame.payload)
  }

  predicate Sendable(frame: Frame) {
    frame.opcode < 16 && |frame.payload| < LENGTHS
  }

  // ------------------------------------------------------------- frames from bytes

  /** What reading a frame gives, and the bytes left unread. */
  datatype Reading = Reading(result: Result<Option<Frame>, Error>, left: seq<byte>)

  /** How many bytes follow the first two to say the length. */
  function Width(code: byte): nat {
    if code == 126 then 2 else if code == 127 then 8 else 0
  }

  function Decode(bytes: seq<byte>): (r: Reading)
    ensures |bytes| >= 2 ==> |r.left| < |bytes|
    ensures r.result.Ok? && r.result.value.Some? ==> |bytes| >= 2
  {
    if |bytes| < 2 then Reading(Ok(None), [])
    else
      var code := bytes[1] % 128;
      var more := bytes[2..];
      if |more| < Width(code) then Reading(Err(TooShort), [])
      else DecodeBody(bytes[0], bytes[1] >= 0x80,
                      if Width(code) == 0 then code as nat else Unpack(more[..Width(code)]), more[Width(code)..])
  }

  function DecodeBody(first: byte, masked: bool, n: nat, body: seq<byte>): Reading {
    var key := if masked then First(body, 4) else NO_KEY;
    var data := if masked then Later(body, 4) else body;
    Reading(Ok(Some(Frame(first % 16, Masked(First(data, n), key)))), Later(data, n))
  }

  lemma BodyRoundTrip(w: Wire, rest: seq<byte>)
    requires w.Valid()
    ensures DecodeBody(w.first, w.key.Some?, |w.payload|, w.Tail() + rest) == Reading(Ok(Some(w.Says())), rest)
  {
    var payload := w.payload;
    if w.key.Some? {
      var key, masked := w.key.value, Masked(w.payload, w.key.value);
      MaskedTwice(payload, key);
      Regrouped(key, masked, rest);
      ReadExactly(key, masked + rest);
      ReadExactly(masked, rest);
    } else {
      MaskedTwice(payload, NO_KEY);
      ReadExactly(payload, rest);
    }
  }

  /** The length said after a head's code. */
  function LengthSaid(code: byte, said: seq<byte>): nat
    requires |said| == Width(code)
  {
    if Width(code) == 0 then code as nat else Unpack(said)
  }

  lemma FormSays(form: Form, n: nat)
    requires n < Capacity(form)
    ensures var code := LengthCode(form, n) as byte;
            |LengthBytes(form, n)| == Width(code) && LengthSaid(code, LengthBytes(form, n)) == n && code < 128
  {
    Powers();
    match form {
      case Short =>
      case Medium => PackUnpacks(n, 2);
      case Long => PackUnpacks(n, 8);
    }
  }

  lemma DecodeHead(bytes: seq<byte>, first: byte, second: byte, said: seq<byte>, body: seq<byte>)
    requires |said| == Width(second % 128) && bytes == [first, second] + said + body
    ensures Decode(bytes) == DecodeBody(first, second >= 0x80, LengthSaid(second % 128, said), body)
  {
    Regrouped([first, second], said, body);
    Halves([first, second], said + body);
    Halves(said, body);
  }

  lemma SecondSays(w: Wire)
    requires w.Valid()
    ensures var said := LengthBytes(w.form, |w.payload|);
            var code := w.Second() % 128;
            && (w.Second() >= 0x80 <==> w.key.Some?)
            && |said| == Width(code) && LengthSaid(code, said) == |w.payload|
  {
    FormSays(w.form, |w.payload|);
  }

  lemma WireParts(w: Wire, rest: seq<byte>)
    requires w.Valid()
    ensures w.Bytes() + rest == [w.first, w.Second()] + LengthBytes(w.form, |w.payload|) + (w.Tail() + rest)
  {
    Regrouped(w.Head(), w.Tail(), rest);
  }

  /** A frame's bytes before its payload: the first, whether it is masked and its
      length, in the form that says it, and its key (section 5.2 of RFC 6455). */
  lemma HeadIs(w: Wire)
    requires w.Valid()
    ensures var n, mask := |w.payload|, if w.key.Some? then 128 else 0;
            && (w.form == Short ==> n < 126 && w.Head() == [w.first, (mask + n) as byte])
            && (w.form == Medium ==> n < 65536 && w.Head() == [w.first, (mask + 126) as byte, (n / 256) as byte, (n % 256) as byte])
            && (w.form == Long ==> w.Head() == [w.first, (mask + 127) as byte] + Pack(n, 8))
            && w.Bytes() == w.Head() + (if w.key.Some? then w.key.value else []) + w.Bytes()[|w.Bytes()| - n..]
  {
    var n := |w.payload|;
    if w.form == Medium {
      PackTwo(n);
    }
    assert w.Bytes()[|w.Bytes()| - n..] == if w.key.Some? then Masked(w.payload, w.key.value) else w.payload;
  }

  lemma PackTwo(n: nat)
    requires n < 65536
    ensures Pack(n, 2) == [(n / 256) as byte, (n % 256) as byte]
  {
    assert Pack(n / 256, 1) == Pack(n / 65536, 0) + [(n / 256) as byte];
    assert Pack(n / 65536, 0) == [];
  }

  /** A frame as any peer may write it is read back: its opcode and payload, in
      every length form, masked or not, and exactly its bytes. */
  lemma FrameRoundTrip(w: Wire, rest: seq<byte>)
    requires w.Valid()
    ensures Decode(w.Bytes() + rest) == Reading(Ok(Some(Frame(w.first % 16, w.payload))), rest)
  {
    var said := LengthBytes(w.form, |w.payload|);
    SecondSays(w);
    WireParts(w, rest);
    DecodeHead(w.Bytes() + rest, w.first, w.Second(), said, w.Tail() + rest);
    BodyRoundTrip(w, rest);
  }

  /** What this origin sends: a final frame, not masked, its length in as few bytes
      as hold it, and its payload as it is. */
  lemma SentIs(frame: Frame)
    requires Sendable(frame)
    ensures var n, first := |frame.payload|, 128 + frame.opcode;
            && (n < 126 ==> Sent(frame).Bytes() == [first, n as byte] + frame.payload)
            && (126 <= n < 65536 ==>
                  Sent(frame).Bytes() == [first, 126, (n / 256) as byte, (n % 256) as byte] + frame.payload)
            && (65536 <= n ==> Sent(frame).Bytes() == [first, 127] + Pack(n, 8) + frame.payload)
  {
    HeadIs(Sent(frame));
  }

  /** What this origin sends is read back too. */
  lemma SentRoundTrip(frame: Frame, rest: seq<byte>)
    requires Sendable(frame)
    ensures Sent(frame).Valid() && Decode(Sent(frame).Bytes() + rest) == Reading(Ok(Some(frame)), rest)
  {
    FrameRoundTrip(Sent(frame), rest);
  }

  // ------------------------------------------------------------- nothing else is read as a frame

  /** No read of the frame at the start of `bytes` comes short. */
  predicate Whole(bytes: seq<byte>) {
    |bytes| >= 2 &&
    var code := bytes[1] % 128;
    |bytes| >= 2 + Width(code) &&
    |bytes| >= 2 + Width(code) + (if bytes[1] >= 0x80 then 4 else 0) + LengthSaid(code, bytes[2..2 + Width(code)])
  }

  function FormOf(code: byte): Form {
    if code == 126 then Medium else if code == 127 then Long else Short
  }

  /** The frame at the start of `bytes`. */
  function WireOf(bytes: seq<byte>): Wire
    requires Whole(bytes)
  {
    var code := bytes[1] % 128;
    var body := bytes[2 + Width(code)..];
    var n := LengthSaid(code, bytes[2..2 + Width(code)]);
    if bytes[1] >= 0x80
    then Wire(bytes[0], Some(body[..4]), FormOf(code), Masked(body[4..4 + n], body[..4]))
    else Wire(bytes[0], None, FormOf(code), body[..n])
  }

  lemma LengthRewritten(code: byte, said: seq<byte>)
    requires |said| == Width(code) && code < 128
    ensures var n := LengthSaid(code, said);
            && n < Capacity(FormOf(code)) && LengthBytes(FormOf(code), n) == said
            && LengthCode(FormOf(code), n) as byte == code
  {
    UnpackFits(said);
    UnpackPacks(said);
    Powers();
    if Width(code) == 0 {
      assert code as nat < 126;
      assert (code as nat) as byte == code;
    }
  }

  lemma WireLength(bytes: seq<byte>)
    requires Whole(bytes)
    ensures var w, code := WireOf(bytes), bytes[1] % 128;
            && w.form == FormOf(code) && (w.key.Some? <==> bytes[1] >= 0x80) && (w.key.Some? ==> |w.key.value| == 4)
            && |w.payload| == LengthSaid(code, bytes[2..2 + Width(code)])
  {
  }

  lemma SecondIs(w: Wire, second: byte, code: byte)
    requires w.Valid() && (w.key.Some? <==> second >= 0x80) && code == second % 128
    requires LengthCode(w.form, |w.payload|) as byte == code
    ensures w.Second() == second
  {
  }

  lemma WireValid(bytes: seq<byte>)
    requires Whole(bytes)
    ensures WireOf(bytes).Valid() && WireOf(bytes).Second() == bytes[1]
    ensures LengthBytes(WireOf(bytes).form, |WireOf(bytes).payload|) == bytes[2..2 + Width(bytes[1] % 128)]
  {
    var w, code := WireOf(bytes), bytes[1] % 128;
    var said := bytes[2..2 + Width(code)];
    WireLength(bytes);
    LengthRewritten(code, said);
    SecondIs(w, bytes[1], code);
  }

  lemma TailIs(bytes: seq<byte>) returns (rest: seq<byte>)
    requires Whole(bytes) && WireOf(bytes).Valid()
    ensures bytes[2 + Width(bytes[1] % 128)..] == WireOf(bytes).Tail() + rest
  {
    var code := bytes[1] % 128;
    var body := bytes[2 + Width(code)..];
    var n := LengthSaid(code, bytes[2..2 + Width(code)]);
    if bytes[1] >= 0x80 {
      rest := body[4 + n..];
      MaskedTwice(body[4..4 + n], body[..4]);
      assert body == body[..4] + body[4..4 + n] + rest;
    } else {
      rest := body[n..];
    }
  }

  lemma Parts(bytes: seq<byte>, width: nat)
    requires |bytes| >= 2 + width
    ensures bytes == ([bytes[0], bytes[1]] + bytes[2..2 + width]) + bytes[2 + width..]
  {
  }

  /** Whatever is read as a whole frame is one a peer may write, and nothing of
      what follows it. */
  lemma WholeIsWire(bytes: seq<byte>)
    requires Whole(bytes)
    ensures var w := WireOf(bytes);
            w.Valid() && bytes == w.Bytes() + Decode(bytes).left && Decode(bytes).result == Ok(Some(w.Says()))
  {
    var w := WireOf(bytes);
    WireValid(bytes);
    var rest := TailIs(bytes);
    Parts(bytes, Width(bytes[1] % 128));
    HeadThenTail(bytes, w, rest);
    FrameRoundTrip(w, rest);
  }

  lemma HeadThenTail(bytes: seq<byte>, w: Wire, rest: seq<byte>)
    requires w.Valid() && bytes == w.Head() + (w.Tail() + rest)
    ensures bytes == w.Bytes() + rest
  {
  }

  // ------------------------------------------------------------- echoing

  datatype Ending = Ended | Closed | Failed

  /** What an origin sends over a connection, how that ends, and what it has not
      read of it by then. */
  datatype Echo = Echo(sent: seq<Frame>, ending: Ending, left: seq<byte>)

  function Reply(frame: Frame): seq<Frame> {
    if frame.opcode == TEXT then [frame]
    else if frame.opcode == PING then [Frame(PONG, frame.payload)]
    else if frame.opcode == CLOSE then [Frame(CLOSE, First(frame.payload, 2))]
    else []
  }

  /** A text is echoed, a ping ponged with what it carried, a close closed with its
      first two bytes, and nothing else is answered. */
  lemma ReplyIs(payload: seq<byte>, opcode: byte)
    ensures Reply(Frame(1, payload)) == [Frame(1, payload)]
    ensures Reply(Frame(9, payload)) == [Frame(10, payload)]
    ensures Reply(Frame(8, payload)) == [Frame(8, if |payload| <= 2 then payload else payload[..2])]
    ensures opcode !in {1, 8, 9} ==> Reply(Frame(opcode, payload)) == []
  {
    assert payload[..|payload|] == payload;
  }

  lemma DecodedSendable(bytes: seq<byte>)
    ensures var r := Decode(bytes).result;
            r.Ok? && r.value.Some? ==> Sendable(r.value.value)
  {
    if |bytes| >= 2 {
      var code := bytes[1] % 128;
      var more := bytes[2..];
      if |more| >= Width(code) {
        UnpackFits(more[..Width(code)]);
        Powers();
      }
    }
  }

  function EchoOf(bytes: seq<byte>): (e: Echo)
    ensures forall i | 0 <= i < |e.sent| :: Sendable(e.sent[i])
    decreases |bytes|
  {
    DecodedSendable(bytes);
    var read := Decode(bytes);
    match read.result
    case Err(_) => Echo([], Failed, read.left)
    case Ok(None) => Echo([], Ended, read.left)
    case Ok(Some(frame)) =>
      if frame.opcode == CLOSE then Echo(Reply(frame), Closed, read.left)
      else
        var more := EchoOf(read.left);
        Echo(Reply(frame) + more.sent, more.ending, more.left)
  }

  function FrameBytes(frame: Frame): seq<byte>
    requires Sendable(frame)
  {
    Sent(frame).Bytes()
  }

  function Each(frames: seq<Frame>): seq<seq<byte>>
    requires forall i | 0 <= i < |frames| :: Sendable(frames[i])
  {
    seq(|frames|, i requires 0 <= i < |frames| => FrameBytes(frames[i]))
  }

  function SentBytes(frames: seq<Frame>): seq<byte>
    requires forall i | 0 <= i < |frames| :: Sendable(frames[i])
  {
    Joined(Each(frames))
  }

  function TextsIn(frames: seq<Frame>): nat {
    if frames == [] then 0 else TextsIn(frames[..|frames| - 1]) + if frames[|frames| - 1].opcode == TEXT then 1 else 0
  }

  function EchoAfter(sent: seq<Frame>, e: Echo): Echo {
    Echo(sent + e.sent, e.ending, e.left)
  }

  lemma EchoUnfolds(sent: seq<Frame>, bytes: seq<byte>)
    ensures var r := Decode(bytes);
            EchoAfter(sent, EchoOf(bytes)) ==
            if r.result.Err? then Echo(sent, Failed, r.left)
            else if r.result.value.None? then Echo(sent, Ended, r.left)
            else
              var frame := r.result.value.value;
              if frame.opcode == CLOSE then Echo(sent + Reply(frame), Closed, r.left)
              else EchoAfter(sent + Reply(frame), EchoOf(r.left))
  {
    assert sent + [] == sent;
    var r := Decode(bytes);
    if r.result.Ok? && r.result.value.Some? && r.result.value.value.opcode != CLOSE {
      var reply := Reply(r.result.value.value);
      assert sent + (reply + EchoOf(r.left).sent) == (sent + reply) + EchoOf(r.left).sent;
    }
  }

  lemma ShortHead(frame: Frame)
    requires Sendable(frame)
    ensures var n, w := |frame.payload|, Sent(frame);
            w.Second() == LengthCode(FormFor(n), n) as byte && w.Tail() == frame.payload
  {
  }

  lemma SentAppend(sent: seq<Frame>, frame: Frame)
    requires Sendable(frame) && forall i | 0 <= i < |sent| :: Sendable(sent[i])
    ensures forall i | 0 <= i < |sent + [frame]| :: Sendable((sent + [frame])[i])
    ensures SentBytes(sent + [frame]) == SentBytes(sent) + FrameBytes(frame)
    ensures TextsIn(sent + [frame]) == TextsIn(sent) + if frame.opcode == TEXT then 1 else 0
  {
    assert Each(sent + [frame]) == Each(sent) + [FrameBytes(frame)];
    JoinedAppend(Each(sent), FrameBytes(frame));
    assert (sent + [frame])[..|sent|] == sent;
  }

  lemma AddSent(written: seq<byte>, sent: seq<Frame>, frame: Frame)
    requires forall i | 0 <= i < |sent| :: Sendable(sent[i])
    requires Sendable(frame)
    ensures forall i | 0 <= i < |sent + Reply(frame)| :: Sendable((sent + Reply(frame))[i])
    ensures (written + SentBytes(sent)) + (if Reply(frame) == [] then [] else FrameBytes(Reply(frame)[0]))
            == written + SentBytes(sent + Reply(frame))
    ensures TextsIn(sent + Reply(frame)) == TextsIn(sent) + if frame.opcode == TEXT then 1 else 0
  {
    if Reply(frame) == [] {
      assert sent + Reply(frame) == sent;
    } else {
      assert Reply(frame) == [Reply(frame)[0]];
      SentAppend(sent, Reply(frame)[0]);
    }
  }

  class Handler {
    var rfile: seq<byte>
    var wfile: seq<byte>

    constructor (rfile: seq<byte>)
      ensures this.rfile == rfile && wfile == []
    {
      this.rfile, wfile := rfile, [];
    }

    method Read(n: nat) returns (bytes: seq<byte>)
      modifies `rfile
      ensures bytes == First(old(rfile), n) && rfile == Later(old(rfile), n)
    {
      bytes, rfile := First(rfile, n), Later(rfile, n);
    }

    /** One frame a client sent, unmasked, or none at its end. */
    method NextFrame() returns (r: Result<Option<Frame>, Error>)
      modifies `rfile
      ensures Reading(r, rfile) == Decode(old(rfile))
    {
      var head := Read(2);
      if |head| < 2 {
        return Ok(None);
      }
      assert rfile == old(rfile)[2..];
      var code := head[1] % 128;
      var length := code as nat;
      if code == 126 || code == 127 {
        var said := Read(if code == 126 then 2 else 8);
        if |said| < Width(code) {
          return Err(TooShort);
        }
        length := Unpack(said);
      }
      assert rfile == old(rfile)[2..][Width(code)..];
      r := ReadBody(head[0], head[1] >= 0x80, length);
    }

    method ReadBody(first: byte, masked: bool, length: nat) returns (r: Result<Option<Frame>, Error>)
      modifies `rfile
      ensures Reading(r, rfile) == DecodeBody(first, masked, length, old(rfile))
    {
      var mask := NO_KEY;
      if masked {
        mask := Read(4);
      }
      var payload := Read(length);
      var plain := Unmask(payload, mask);
      return Ok(Some(Frame(first % 16, plain)));
    }

    method SendFrame(opcode: byte, payload: seq<byte>)
      requires Sendable(Frame(opcode, payload))
      modifies `wfile
      ensures wfile == old(wfile) + FrameBytes(Frame(opcode, payload))
    {
      var n := |payload|;
      var head := [0x80 + opcode];
      if n < 126 {
        head := head + [n as byte];
      } else if n < 65536 {
        head := head + [126] + Pack(n, 2);
      } else {
        head := head + [127] + Pack(n, 8);
      }
      ShortHead(Frame(opcode, payload));
      wfile := wfile + (head + payload);
    }

    /** One frame read, and what it calls for sent; or why there is no more. */
    method EchoOne() returns (ending: Option<Ending>, frame: Option<Frame>)
      modifies this
      ensures var r := Decode(old(rfile));
              && rfile == r.left
              && frame == (if r.result.Ok? then r.result.value else None)
              && ending == (if r.result.Err? then Some(Failed) else if r.result.value.None? then Some(Ended)
                            else if frame.value.opcode == CLOSE then Some(Closed) else None)
              && (frame.Some? ==> Sendable(frame.value))
              && wfile == old(wfile) + if frame.None? || Reply(frame.value) == [] then [] else FrameBytes(Reply(frame.value)[0])
    {
      DecodedSendable(rfile);
      var r := NextFrame();
      assert wfile == old(wfile) + [];
      if r.Err? {
        return Some(Failed), None;
      }
      frame := r.value;
      if frame.None? {
        return Some(Ended), None;
      }
      var Frame(opcode, payload) := frame.value;
      ending := None;
      if opcode == TEXT {
        SendFrame(TEXT, payload);
      } else if opcode == PING {
        SendFrame(PONG, payload);
      } else if opcode == CLOSE {
        SendFrame(CLOSE, First(payload, 2));
        ending := Some(Closed);
      }
    }

    /** Echo texts and answer pings, until a close frame or the stream's end:
        what is written is what `EchoOf` says, and texts are counted. */
    method EchoAll() returns (echoed: nat, ending: Ending)
      modifies this
      ensures var e := EchoOf(old(rfile));
              && wfile == old(wfile) + SentBytes(e.sent) && rfile == e.left
              && ending == e.ending && echoed == TextsIn(e.sent)
    {
      echoed := 0;
      ghost var sent: seq<Frame> := [];
      ghost var all := EchoOf(rfile);
      assert wfile == wfile + SentBytes(sent);
      while true
        invariant forall i | 0 <= i < |sent| :: Sendable(sent[i])
        invariant wfile == old(wfile) + SentBytes(sent) && echoed == TextsIn(sent)
        invariant all == EchoAfter(sent, EchoOf(rfile))
        decreases |rfile|
      {
        ghost var before := rfile;
        var ended, frame := EchoOne();
        EchoUnfolds(sent, before);
        if frame.None? {
          return echoed, ended.value;
        }
        AddSent(old(wfile), sent, frame.value);
        sent := sent + Reply(frame.value);
        if frame.value.opcode == TEXT {
          echoed := echoed + 1;
        }
        if ended.Some? {
          return echoed, ended.value;
        }
      }
    }
  }

  method Unmask(payload: seq<byte>, mask: seq<byte>) returns (plain: seq<byte>)
    requires payload == [] || |mask| == 4
    ensures plain == Masked(payload, mask)
    ensures |plain| == |payload| && forall i | 0 <= i < |plain| :: plain[i] == Xor(payload[i], mask[i % 4])
  {
    plain := [];
    for i := 0 to |payload|
      invariant plain == Masked(payload, mask)[..i]
    {
      plain := plain + [Xor(payload[i], mask[i % 4])];
    }
  }

  // ------------------------------------------------------------- what a client gets

  predicate AllValid(wires: seq<Wire>) {
    forall i | 0 <= i < |wires| :: wires[i].Valid()
  }

  /** What a client sends, frame after frame. */
  function WireBytes(wires: seq<Wire>): seq<byte>
    requires AllValid(wires)
  {
    if wires == [] then [] else wires[0].Bytes() + WireBytes(wires[1..])
  }

  /** The texts and the pongs, in order. */
  function Replies(wires: seq<Wire>): seq<Frame> {
    if wires == [] then [] else Reply(wires[0].Says()) + Replies(wires[1..])
  }

  lemma {:induction false} EchoesFrames(wires: seq<Wire>, tail: seq<byte>)
    requires AllValid(wires) && forall i | 0 <= i < |wires| :: wires[i].Says().opcode != CLOSE
    ensures EchoOf(WireBytes(wires) + tail) == EchoAfter(Replies(wires), EchoOf(tail))
    decreases |wires|
  {
    if wires == [] {
      assert WireBytes(wires) + tail == tail;
    } else {
      var rest := WireBytes(wires[1..]) + tail;
      assert WireBytes(wires) + tail == wires[0].Bytes() + rest;
      FrameRoundTrip(wires[0], rest);
      EchoUnfolds([], wires[0].Bytes() + rest);
      EchoesFrames(wires[1..], tail);
      Then(Reply(wires[0].Says()), Replies(wires[1..]), EchoOf(tail));
    }
  }

  lemma Then(first: seq<Frame>, more: seq<Frame>, e: Echo)
    ensures EchoAfter(first, EchoAfter(more, e)) == EchoAfter(first + more, e)
    ensures EchoAfter([], e) == e && [] + first == first
  {
  }

  /** Over any frames a client sends, then a close frame, then anything: the
      texts and the pongs are sent, in order, then one close frame with what
      code the client's had; and nothing after it is read. */
  lemma EchoesUntilClose(wires: seq<Wire>, close: Wire, rest: seq<byte>)
    requires AllValid(wires) && forall i | 0 <= i < |wires| :: wires[i].Says().opcode != CLOSE
    requires close.Valid() && close.Says().opcode == CLOSE
    ensures EchoOf(WireBytes(wires) + (close.Bytes() + rest))
            == Echo(Replies(wires) + [Frame(CLOSE, First(close.payload, 2))], Closed, rest)
  {
    EchoesFrames(wires, close.Bytes() + rest);
    FrameRoundTrip(close, rest);
    EchoUnfolds([], close.Bytes() + rest);
  }

  lemma NothingMore(bytes: seq<byte>, sent: seq<Frame>)
    ensures bytes + [] == bytes && EchoAfter(sent, EchoOf([])) == Echo(sent, Ended, [])
  {
  }

  /** With no close frame, they are all answered, and no close frame is sent. */
  lemma EchoesToTheEnd(wires: seq<Wire>)
    requires AllValid(wires) && forall i | 0 <= i < |wires| :: wires[i].Says().opcode != CLOSE
    ensures EchoOf(WireBytes(wires)) == Echo(Replies(wires), Ended, [])
  {
    EchoesFrames(wires, []);
    NothingMore(WireBytes(wires), Replies(wires));
  }

  /** Every frame of `bytes`, read one after another. */
  function DecodeAll(bytes: seq<byte>): seq<Frame>
    decreases |bytes|
  {
    var read := Decode(bytes);
    if read.result.Err? || read.result.value.None? then []
    else [read.result.value.value] + DecodeAll(read.left)
  }

  lemma SentFirst(frames: seq<Frame>)
    requires frames != [] && forall i | 0 <= i < |frames| :: Sendable(frames[i])
    ensures SentBytes(frames) == FrameBytes(frames[0]) + SentBytes(frames[1..])
  {
    assert Each(frames) == [FrameBytes(frames[0])] + Each(frames[1..]);
    JoinedFirst(FrameBytes(frames[0]), Each(frames[1..]));
  }

  /** What is sent is read back by any client: the same frames. */
  lemma {:induction false} SentReadsBack(frames: seq<Frame>)
    requires forall i | 0 <= i < |frames| :: Sendable(frames[i])
    ensures DecodeAll(SentBytes(frames)) == frames
    decreases |frames|
  {
    if frames != [] {
      SentFirst(frames);
      SentRoundTrip(frames[0], SentBytes(frames[1..]));
      SentReadsBack(frames[1..]);
    }
  }

  // ------------------------------------------------------------- streams that end early

  function KeyLength(w: Wire): nat {
    if w.key.Some? then 4 else 0
  }

  /** What of the payload has come when only `k` bytes have. */
  function PayloadBy(w: Wire, k: nat): nat
    requires w.Valid()
  {
    var before := |w.Head()| + KeyLength(w);
    if k < before then 0 else Least(k - before, |w.payload|)
  }

  /** A frame whose stream ends within it: no frame, when its first two bytes
      have not both come; an error, when its length has not; and otherwise its
      opcode and what has come of its payload, as if it were all. */
  lemma CutShort(w: Wire, k: nat)
    requires w.Valid() && k < |w.Bytes()|
    ensures Decode(w.Bytes()[..k]) ==
            Reading(if k < 2 then Ok(None) else if k < |w.Head()| then Err(TooShort)
                    else Ok(Some(Frame(w.first % 16, w.payload[..PayloadBy(w, k)]))), [])
  {
    SecondSays(w);
    var said := LengthBytes(w.form, |w.payload|);
    var bytes := w.Bytes()[..k];
    if 2 <= k {
      assert bytes[0] == w.first && bytes[1] == w.Second();
      if |w.Head()| <= k {
        var body := w.Tail()[..k - |w.Head()|];
        assert bytes == [w.first, w.Second()] + said + body;
        DecodeHead(bytes, w.first, w.Second(), said, body);
        CutBody(w, k - |w.Head()|);
      }
    }
  }

  lemma CutRead(part: seq<byte>, n: nat)
    requires |part| <= n
    ensures First(part, n) == part && Later(part, n) == []
  {
  }

  /** A masked payload cut short, its key whole. */
  lemma CutMasked(first: byte, key: seq<byte>, payload: seq<byte>, k: nat)
    requires |key| == 4 && k < |payload|
    ensures DecodeBody(first, true, |payload|, key + Masked(payload, key)[..k])
            == Reading(Ok(Some(Frame(first % 16, payload[..k]))), [])
  {
    var part := Masked(payload, key)[..k];
    ReadExactly(key, part);
    CutRead(part, |payload|);
    MaskedTwice(payload, key);
    assert Masked(part, key) == Masked(Masked(payload, key), key)[..k];
  }

  /** A key cut short. */
  lemma CutKey(first: byte, part: seq<byte>, n: nat)
    requires |part| < 4
    ensures DecodeBody(first, true, n, part) == Reading(Ok(Some(Frame(first % 16, []))), [])
  {
    CutRead(part, 4);
    CutRead([], n);
    assert Masked([], part) == [];
  }

  /** A payload that is not masked, cut short. */
  lemma CutPlain(first: byte, part: seq<byte>, n: nat)
    requires |part| <= n
    ensures DecodeBody(first, false, n, part) == Reading(Ok(Some(Frame(first % 16, part))), [])
  {
    CutRead(part, n);
    MaskedTwice(part, NO_KEY);
  }

  lemma CutBody(w: Wire, k: nat)
    requires w.Valid() && k < |w.Tail()|
    ensures DecodeBody(w.first, w.key.Some?, |w.payload|, w.Tail()[..k])
            == Reading(Ok(Some(Frame(w.first % 16, w.payload[..PayloadBy(w, k + |w.Head()|)]))), [])
  {
    if w.key.None? {
      CutPlain(w.first, w.payload[..k], |w.payload|);
    } else if k < 4 {
      CutKey(w.first, w.Tail()[..k], |w.payload|);
      assert w.payload[..0] == [];
    } else {
      var key := w.key.value;
      assert w.Tail()[..k] == key + Masked(w.payload, key)[..k - 4];
      CutMasked(w.first, key, w.payload, k - 4);
    }
  }
}
