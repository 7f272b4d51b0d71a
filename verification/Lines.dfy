/** Reading a connection's lines: however its bytes arrive, the lines that were
    written come back, and never more than a line's worth of them is kept. */
module Lines {
  import opened Wrappers
  import opened Bytes

  const NEWLINE: byte := 10

  /** What one read of the stream gives: bytes, an interruption, or a failure. */
  datatype Fill = Data(bytes: seq<byte>) | Interrupted | Failed

  datatype Line = Text(text: string) | TooLong | NotText | End

  datatype Error = ReadFailed

  // ------------------------------------------------------------- what is written

  /** How many bytes come before the first newline, or in all. */
  function LineLength(bytes: seq<byte>): (n: nat)
    ensures n <= |bytes| && (forall i | 0 <= i < n :: bytes[i] != NEWLINE) && (n < |bytes| ==> bytes[n] == NEWLINE)
  {
    if bytes == [] || bytes[0] == NEWLINE then 0 else 1 + LineLength(bytes[1..])
  }

  function Rest(bytes: seq<byte>): seq<byte> {
    var n := LineLength(bytes);
    if n < |bytes| then bytes[n + 1..] else []
  }

  /** `text` without the carriage returns it ends with. */
  function TrimEnd(text: string): string {
    if text != "" && text[|text| - 1] == '\r' then TrimEnd(text[..|text| - 1]) else text
  }

  /** What a line is read as, `decode` being UTF-8. */
  function Read(line: seq<byte>, max: nat, decode: seq<byte> -> Option<string>): Line {
    if |line| > max then TooLong
    else match decode(line) case None => NotText case Some(text) => Text(TrimEnd(text))
  }

  /** What a line of `max` bytes or fewer says, without the carriage returns it
      ends with; one longer is refused, and so is one that is no text. */
  lemma ReadIs(line: seq<byte>, max: nat, decode: seq<byte> -> Option<string>)
    ensures var r := Read(line, max, decode);
            && (r == TooLong <==> |line| > max)
            && (r == NotText <==> |line| <= max && decode(line).None?)
            && (r.Text? <==> |line| <= max && decode(line).Some?)
            && (r.Text? ==>
                  && r.text <= decode(line).value && (r.text == "" || r.text[|r.text| - 1] != '\r')
                  && forall i | |r.text| <= i < |decode(line).value| :: decode(line).value[i] == '\r')
  {
    if decode(line).Some? {
      TrimEndIs(decode(line).value);
    }
  }

  /** The first line of `bytes`, the last that will come. */
  function FirstLine(bytes: seq<byte>, max: nat, decode: seq<byte> -> Option<string>): Line {
    if bytes == [] then End else Read(bytes[..LineLength(bytes)], max, decode)
  }

  lemma {:induction false} TrimEndIs(text: string)
    ensures var t := TrimEnd(text);
            && t <= text && (t == "" || t[|t| - 1] != '\r')
            && forall i | |t| <= i < |text| :: text[i] == '\r'
  {
    if text != "" && text[|text| - 1] == '\r' {
      TrimEndIs(text[..|text| - 1]);
    }
  }

  lemma {:induction false} LineLengthIs(bytes: seq<byte>, n: nat)
    requires n <= |bytes| && NEWLINE !in bytes[..n] && (n < |bytes| ==> bytes[n] == NEWLINE)
    ensures LineLength(bytes) == n
  {
    if n > 0 {
      assert bytes[0] in bytes[..n];
      assert bytes[1..][..n - 1] == bytes[..n][1..];
      LineLengthIs(bytes[1..], n - 1);
    }
  }

  /** A line that ends: what is read of it, its newline, and what follows. */
  lemma LineEnds(all: seq<byte>, read: seq<byte>, after: seq<byte>)
    requires NEWLINE !in read && all == read + [NEWLINE] + after
    ensures all != [] && NEWLINE in all && all[..LineLength(all)] == read && Rest(all) == after
  {
    assert all[..|read|] == read;
    assert all[|read|] == NEWLINE;
    LineLengthIs(all, |read|);
  }

  /** A line that only the stream's end ends. */
  lemma LineStops(all: seq<byte>)
    requires NEWLINE !in all
    ensures all[..LineLength(all)] == all && Rest(all) == []
  {
    assert all[..|all|] == all;
    LineLengthIs(all, |all|);
  }

  // ------------------------------------------------------------- what arrives

  /** The bytes that come before the stream first fails. */
  function Until(ahead: seq<Fill>): seq<byte> {
    if ahead == [] then []
    else match ahead[0]
      case Data(bytes) => bytes + Until(ahead[1..])
      case Interrupted => Until(ahead[1..])
      case Failed => []
  }

  predicate Fails(ahead: seq<Fill>) {
    ahead != [] && (ahead[0].Failed? || Fails(ahead[1..]))
  }

  /** What there is after the stream first fails. */
  function After(ahead: seq<Fill>): seq<Fill> {
    if ahead == [] then []
    else if ahead[0].Failed? then ahead[1..] else After(ahead[1..])
  }

  function Size(ahead: seq<Fill>): nat {
    if ahead == [] then 0
    else 1 + (if ahead[0].Data? then |ahead[0].bytes| else 0) + Size(ahead[1..])
  }

  /** Same bytes to come, and the same after them. */
  predicate Same(ahead: seq<Fill>, later: seq<Fill>) {
    Fails(later) == Fails(ahead) && After(later) == After(ahead)
  }

  /** A buffered stream: a read gives what is buffered until it is consumed. */
  class Reader {
    var ahead: seq<Fill>

    predicate Valid()
      reads this
    {
      forall i | 0 <= i < |ahead| :: ahead[i].Data? ==> ahead[i].bytes != []
    }

    constructor (ahead: seq<Fill>)
      requires forall i | 0 <= i < |ahead| :: ahead[i].Data? ==> ahead[i].bytes != []
      ensures Valid() && this.ahead == ahead
    {
      this.ahead := ahead;
    }

    /** The buffer, empty at the stream's end; an interruption or a failure is
        reported once. */
    method FillBuf() returns (fill: Fill)
      requires Valid()
      modifies this
      ensures Valid()
      ensures old(ahead) == [] ==> fill == Data([]) && ahead == []
      ensures old(ahead) != [] ==> fill == old(ahead)[0] && ahead == if fill.Data? then old(ahead) else old(ahead)[1..]
    {
      if ahead == [] {
        return Data([]);
      }
      fill := ahead[0];
      if !fill.Data? {
        ahead := ahead[1..];
      }
    }

    method Consume(used: nat)
      requires Valid() && ahead != [] && ahead[0].Data? && 0 < used <= |ahead[0].bytes|
      modifies this
      ensures Valid() && Until(old(ahead)) == old(ahead)[0].bytes[..used] + Until(ahead)
      ensures Same(old(ahead), ahead) && Size(ahead) < Size(old(ahead))
    {
      var bytes := ahead[0].bytes;
      assert bytes == bytes[..used] + bytes[used..];
      if used == |bytes| {
        ahead := ahead[1..];
      } else {
        var left := [Data(bytes[used..])] + ahead[1..];
        assert left[1..] == ahead[1..];
        ahead := left;
      }
    }
  }

  method Position(buffer: seq<byte>) returns (at: Option<nat>)
    ensures at == if NEWLINE in buffer then Some(LineLength(buffer)) else None
  {
    for i := 0 to |buffer|
      invariant NEWLINE !in buffer[..i]
    {
      if buffer[i] == NEWLINE {
        LineLengthIs(buffer, i);
        return Some(i);
      }
      assert buffer[..i + 1] == buffer[..i] + [buffer[i]];
    }
    assert buffer[..|buffer|] == buffer;
    return None;
  }

  /** The line kept so far: nothing, once it is too long. */
  predicate Keeps(line: seq<byte>, tooLong: bool, read: seq<byte>, max: nat) {
    (tooLong <==> |read| > max) && line == if tooLong then [] else read
  }

  method Keep(line: seq<byte>, tooLong: bool, part: seq<byte>, max: nat, ghost read: seq<byte>)
    returns (kept: seq<byte>, longer: bool)
    requires Keeps(line, tooLong, read, max)
    ensures Keeps(kept, longer, read + part, max)
  {
    kept, longer := line, tooLong;
    if !tooLong {
      if |line| + |part| > max {
        longer := true;
        kept := [];
      } else {
        kept := line + part;
      }
    }
  }

  /** What one read found: more of the line, its end, or the stream's. */
  datatype Found = More | LineEnd | StreamEnd | Failure

  /** One turn of reading a line: `part` is what it found of it. */
  method ReadPart(reader: Reader) returns (found: Found, part: seq<byte>)
    requires reader.Valid()
    modifies reader
    ensures reader.Valid() && NEWLINE !in part
    ensures if found.Failure? then Until(old(reader.ahead)) == [] && Fails(old(reader.ahead)) && reader.ahead == After(old(reader.ahead))
            else Same(old(reader.ahead), reader.ahead)
                 && Until(old(reader.ahead)) == part + (if found.LineEnd? then [NEWLINE] else []) + Until(reader.ahead)
    ensures found.StreamEnd? ==> part == [] && Until(reader.ahead) == [] && !Fails(old(reader.ahead))
    ensures found.More? || found.LineEnd? ==> Size(reader.ahead) < Size(old(reader.ahead))
    ensures Size(reader.ahead) <= Size(old(reader.ahead))
    ensures found.Failure? || found.StreamEnd? ==> part == []
  {
    part := [];
    var fill := reader.FillBuf();
    match fill {
      case Interrupted => return More, [];
      case Failed => return Failure, [];
      case Data(buffer) =>
        if buffer == [] {
          return StreamEnd, [];
        }
        var at := Position(buffer);
        part := if at.Some? then buffer[..at.value] else buffer;
        var used := if at.Some? then at.value + 1 else |part|;
        reader.Consume(used);
        assert buffer[..used] == part + if at.Some? then [NEWLINE] else [];
        found := if at.Some? then LineEnd else More;
    }
  }

  lemma PartRead(all: seq<byte>, read: seq<byte>, before: seq<byte>, part: seq<byte>, mark: seq<byte>, after: seq<byte>)
    requires all == read + before && before == part + mark + after
    requires NEWLINE !in read && NEWLINE !in part
    ensures all == (read + part) + mark + after && NEWLINE !in read + part
    ensures mark == [] ==> all == (read + part) + after
  {
  }

  /** Read to the end of the line, or of the stream. */
  method Gather(reader: Reader, max: nat)
    returns (found: Found, line: seq<byte>, tooLong: bool, ghost read: seq<byte>, ghost most: nat)
    requires reader.Valid()
    modifies reader
    ensures reader.Valid() && !found.More? && NEWLINE !in read && Keeps(line, tooLong, read, max) && most <= max
    ensures var all := Until(old(reader.ahead));
            if found.Failure? then all == read && Fails(old(reader.ahead)) && reader.ahead == After(old(reader.ahead))
            else Same(old(reader.ahead), reader.ahead)
                 && all == read + (if found.LineEnd? then [NEWLINE] else []) + Until(reader.ahead)
    ensures found.StreamEnd? ==> Until(reader.ahead) == [] && !Fails(old(reader.ahead))
    ensures read != [] || found.LineEnd? ==> found.Failure? || Size(reader.ahead) < Size(old(reader.ahead))
  {
    line, tooLong, read, most, found := [], false, [], 0, More;
    ghost var all := Until(reader.ahead);
    while true
      invariant reader.Valid() && all == read + Until(reader.ahead) && Same(old(reader.ahead), reader.ahead)
      invariant NEWLINE !in read && Keeps(line, tooLong, read, max) && most <= max
      invariant Size(reader.ahead) <= Size(old(reader.ahead))
      invariant read != [] ==> Size(reader.ahead) < Size(old(reader.ahead))
      decreases Size(reader.ahead)
    {
      ghost var before := Until(reader.ahead);
      var part: seq<byte>;
      found, part := ReadPart(reader);
      if found.Failure? || found.StreamEnd? {
        return;
      }
      PartRead(all, read, before, part, if found.LineEnd? then [NEWLINE] else [], Until(reader.ahead));
      line, tooLong := Keep(line, tooLong, part, max, read);
      most := if most < |line| then |line| else most;
      read := read + part;
      if found.LineEnd? {
        return;
      }
    }
  }

  /** Read one line, keeping no more than `max` bytes of it: the first line of
      what is to come, however it is cut up and interrupted on its way; or a
      failure, if that comes before the line's end. */
  method ReadLine(reader: Reader, max: nat, decode: seq<byte> -> Option<string>)
    returns (r: Result<Line, Error>, ghost most: nat)
    requires reader.Valid()
    modifies reader
    ensures reader.Valid() && most <= max
    ensures var all := Until(old(reader.ahead));
            if NEWLINE in all || !Fails(old(reader.ahead))
            then r == Ok(FirstLine(all, max, decode)) && Until(reader.ahead) == Rest(all)
                 && Same(old(reader.ahead), reader.ahead)
                 && (all != [] ==> Size(reader.ahead) < Size(old(reader.ahead)))
            else r == Err(ReadFailed) && reader.ahead == After(old(reader.ahead))
  {
    var found, line, tooLong, read, most' := Gather(reader, max);
    most := most';
    ghost var all := Until(old(reader.ahead));
    if found.Failure? {
      return Err(ReadFailed), most;
    }
    if found.StreamEnd? {
      assert all == read;
      LineStops(all);
      if line == [] && !tooLong {
        return Ok(End), most;
      }
    } else {
      LineEnds(all, read, Until(reader.ahead));
    }
    if tooLong {
      return Ok(TooLong), most;
    }
    var text := decode(line);
    return Ok(if text.Some? then Text(TrimEnd(text.value)) else NotText), most;
  }

  // ------------------------------------------------------------- line after line

  /** Every line of `bytes`, the last that will come. */
  function LinesOf(bytes: seq<byte>, max: nat, decode: seq<byte> -> Option<string>): seq<Line>
    decreases |bytes|
  {
    if bytes == [] then [] else [FirstLine(bytes, max, decode)] + LinesOf(Rest(bytes), max, decode)
  }

  /** `bytes` up to and with its last newline. */
  function Whole(bytes: seq<byte>): seq<byte>
    decreases |bytes|
  {
    if NEWLINE !in bytes then [] else bytes[..LineLength(bytes)] + [NEWLINE] + Whole(Rest(bytes))
  }

  /** The lines to come of `bytes`, if the stream then ends, or fails. */
  function LinesAhead(bytes: seq<byte>, fails: bool, max: nat, decode: seq<byte> -> Option<string>): seq<Line> {
    LinesOf(if fails then Whole(bytes) else bytes, max, decode)
  }

  lemma NextAhead(bytes: seq<byte>, fails: bool, max: nat, decode: seq<byte> -> Option<string>)
    requires if fails then NEWLINE in bytes else bytes != []
    ensures LinesAhead(bytes, fails, max, decode)
            == [FirstLine(bytes, max, decode)] + LinesAhead(Rest(bytes), fails, max, decode)
  {
    if fails {
      LineEnds(Whole(bytes), bytes[..LineLength(bytes)], Whole(Rest(bytes)));
    }
  }

  lemma OneMore(lines: seq<Line>, line: Line, more: seq<Line>)
    ensures (lines + [line]) + more == lines + ([line] + more)
  {
  }

  /** Lines, until the stream ends or fails: all that were written, or, if it
      fails, all that were written whole before it did. */
  method ReadLines(reader: Reader, max: nat, decode: seq<byte> -> Option<string>) returns (lines: seq<Line>)
    requires reader.Valid()
    modifies reader
    ensures reader.Valid()
    ensures var all := Until(old(reader.ahead));
            lines == LinesAhead(all, Fails(old(reader.ahead)), max, decode)
  {
    lines := [];
    ghost var fails := Fails(reader.ahead);
    ghost var all := LinesAhead(Until(reader.ahead), fails, max, decode);
    while true
      invariant reader.Valid() && Fails(reader.ahead) == fails
      invariant lines + LinesAhead(Until(reader.ahead), fails, max, decode) == all
      decreases Size(reader.ahead)
    {
      ghost var left := Until(reader.ahead);
      var line, _ := ReadLine(reader, max, decode);
      if line.Err? || line.value.End? {
        assert LinesAhead(left, fails, max, decode) == [];
        return;
      }
      NextAhead(left, fails, max, decode);
      OneMore(lines, line.value, LinesAhead(Rest(left), fails, max, decode));
      lines := lines + [line.value];
    }
  }

  /** What is written for `lines`, one after another. */
  function Written(lines: seq<seq<byte>>): seq<byte> {
    if lines == [] then [] else lines[0] + [NEWLINE] + Written(lines[1..])
  }

  /** Each line, as it is read by itself. */
  function EachRead(lines: seq<seq<byte>>, max: nat, decode: seq<byte> -> Option<string>): seq<Line> {
    seq(|lines|, i requires 0 <= i < |lines| => Read(lines[i], max, decode))
  }

  lemma EachFirst(lines: seq<seq<byte>>, max: nat, decode: seq<byte> -> Option<string>)
    requires lines != []
    ensures EachRead(lines, max, decode) == [Read(lines[0], max, decode)] + EachRead(lines[1..], max, decode)
  {
  }

  /** Lines written are lines read, each as it is read by itself, whatever
      over-long ones lie between. */
  lemma {:induction false} WrittenReadsBack(lines: seq<seq<byte>>, max: nat, decode: seq<byte> -> Option<string>)
    requires forall i | 0 <= i < |lines| :: NEWLINE !in lines[i]
    ensures LinesOf(Written(lines), max, decode) == EachRead(lines, max, decode)
    ensures Whole(Written(lines)) == Written(lines)
  {
    if lines != [] {
      var more := Written(lines[1..]);
      FirstRead(lines[0], more, max, decode);
      EachFirst(lines, max, decode);
      WrittenReadsBack(lines[1..], max, decode);
    }
  }

  lemma FirstRead(line: seq<byte>, more: seq<byte>, max: nat, decode: seq<byte> -> Option<string>)
    requires NEWLINE !in line
    ensures LinesOf(line + [NEWLINE] + more, max, decode) == [Read(line, max, decode)] + LinesOf(more, max, decode)
    ensures Whole(line + [NEWLINE] + more) == line + [NEWLINE] + Whole(more)
  {
    var all := line + [NEWLINE] + more;
    LineEnds(all, line, more);
    assert LinesOf(all, max, decode) == [FirstLine(all, max, decode)] + LinesOf(Rest(all), max, decode);
  }
}
