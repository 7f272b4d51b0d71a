/** Reading a PNG's first rows: the chunks, and the filters of section 6 of
    RFC 2083 undone in place. */
module Png {
  import opened Wrappers
  import opened Bytes
  import opened Lists

  const SIGNATURE: seq<byte> := [0x89, 0x50, 0x4E, 0x47, 0x0D, 0x0A, 0x1A, 0x0A]
  const IHDR: seq<byte> := [0x49, 0x48, 0x44, 0x52]
  const IDAT: seq<byte> := [0x49, 0x44, 0x41, 0x54]

  datatype Error = NotPng | Unpacking | NoHeader | Unsupported | BadData | OutOfRange

  // ------------------------------------------------------------- one byte

  /** Their sum, modulo 256. */
  function Add(a: byte, b: byte): byte {
    var sum := a as int + b as int;
    (if sum < 256 then sum else sum - 256) as byte
  }

  /** Their difference, modulo 256. */
  function Subtract(a: byte, b: byte): byte {
    var left := a as int - b as int;
    (if left < 0 then left + 256 else left) as byte
  }

  lemma AddSubtract(a: byte, b: byte)
    ensures Add(Subtract(a, b), b) == a && Subtract(Add(a, b), b) == a && Add(a, 0) == a
  {
  }

  function Distance(p: int, a: byte): nat {
    if p < a as int then a as int - p else p - a as int
  }

  function Paeth(left: byte, up: byte, corner: byte): byte {
    var p := left as int + up as int - corner as int;
    var pa, pb, pc := Distance(p, left), Distance(p, up), Distance(p, corner);
    if pa <= pb && pa <= pc then left else if pb <= pc then up else corner
  }

  /** The nearest of the three to their linear prediction, and of those equally
      near, the first. */
  lemma PaethIsNearest(left: byte, up: byte, corner: byte)
    ensures var p, r := left as int + up as int - corner as int, Paeth(left, up, corner);
            && r in {left, up, corner}
            && (forall x | x in {left, up, corner} :: Distance(p, r) <= Distance(p, x))
            && (Distance(p, left) == Distance(p, r) ==> r == left)
            && (Distance(p, up) == Distance(p, r) ==> r == left || r == up)
  {
  }

  /** `a` is no further from `p` than `b` is. */
  predicate NoFurther(p: int, a: int, b: int) {
    (p - a <= p - b || p - a <= b - p) && (a - p <= p - b || a - p <= b - p)
  }

  /** `x` is the one of `left`, `up` and `corner` nearest to `left` + `up` -
      `corner`; of those as near as each other, the first. */
  predicate IsNearest(x: int, left: int, up: int, corner: int) {
    var p := left + up - corner;
    && x in {left, up, corner}
    && NoFurther(p, x, left) && NoFurther(p, x, up) && NoFurther(p, x, corner)
    && (NoFurther(p, left, x) ==> x == left)
    && (NoFurther(p, up, x) ==> x == left || x == up)
  }

  /** What a byte stored as `stored` is, by filter `kind`, beside what is before
      it in its row, above it, and before that: section 6 of RFC 2083. */
  predicate IsByte(kind: byte, stored: byte, left: byte, up: byte, corner: byte, value: byte) {
    var s, l, u, c, r := stored as int, left as int, up as int, corner as int, value as int;
    if kind == 1 then r == (s + l) % 256
    else if kind == 2 then r == (s + u) % 256
    else if kind == 3 then r == (s + (l + u) / 2) % 256
    else if kind == 4 then
      || (IsNearest(l, l, u, c) && r == (s + l) % 256)
      || (IsNearest(u, l, u, c) && r == (s + u) % 256)
      || (IsNearest(c, l, u, c) && r == (s + c) % 256)
    else r == s
  }

  lemma ByteIs(kind: byte, stored: byte, left: byte, up: byte, corner: byte)
    ensures IsByte(kind, stored, left, up, corner, Add(stored, Predict(kind, left, up, corner)))
  {
  }

  function Predict(kind: byte, left: byte, up: byte, corner: byte): byte {
    if kind == 1 then left
    else if kind == 2 then up
    else if kind == 3 then ((left as int + up as int) / 2) as byte
    else if kind == 4 then Paeth(left, up, corner)
    else 0
  }

  // ------------------------------------------------------------- one row

  /** The byte before `i` of the same channel, 0 at a row's start. */
  function Before(row: seq<byte>, i: nat, channels: nat): byte
    requires channels >= 1 && i < |row| + channels
  {
    if i >= channels then row[i - channels] else 0
  }

  function Filtered(kind: byte, row: seq<byte>, previous: seq<byte>, channels: nat, i: nat): byte
    requires channels >= 1 && i < |row| <= |previous|
  {
    Subtract(row[i], Predict(kind, Before(row, i, channels), previous[i], Before(previous, i, channels)))
  }

  /** A row as a PNG stores it, by filter `kind`. */
  function Filter(kind: byte, row: seq<byte>, previous: seq<byte>, channels: nat): seq<byte>
    requires channels >= 1 && |row| <= |previous|
  {
    seq(|row|, i requires 0 <= i < |row| => Filtered(kind, row, previous, channels, i))
  }

  /** The first `n` bytes of the row a PNG stores as `line`. */
  function Unfilter(kind: byte, line: seq<byte>, previous: seq<byte>, channels: nat, n: nat): (row: seq<byte>)
    requires channels >= 1 && n <= |line| && n <= |previous|
    ensures |row| == n
  {
    if n == 0 then []
    else
      var row := Unfilter(kind, line, previous, channels, n - 1);
      row + [Add(line[n - 1], Predict(kind, Before(row, n - 1, channels), previous[n - 1], Before(previous, n - 1, channels)))]
  }

  /** The row a PNG stores as `line`. */
  function Unfiltered(kind: byte, line: seq<byte>, previous: seq<byte>, channels: nat): seq<byte>
    requires channels >= 1 && |line| <= |previous|
  {
    Unfilter(kind, line, previous, channels, |line|)
  }

  /** Undoing a filter gives the row it was applied to. */
  lemma {:induction false} FilterUndone(kind: byte, row: seq<byte>, previous: seq<byte>, channels: nat, n: nat)
    requires channels >= 1 && n <= |row| <= |previous|
    ensures Unfilter(kind, Filter(kind, row, previous, channels), previous, channels, n) == row[..n]
  {
    if n > 0 {
      FilterUndone(kind, row, previous, channels, n - 1);
      assert Before(row[..n - 1], n - 1, channels) == Before(row, n - 1, channels);
      AddSubtract(row[n - 1], Predict(kind, Before(row, n - 1, channels), previous[n - 1], Before(previous, n - 1, channels)));
      assert row[..n] == row[..n - 1] + [row[n - 1]];
    }
  }

  lemma {:induction false} UnfilterAt(kind: byte, line: seq<byte>, previous: seq<byte>, channels: nat, n: nat, i: nat)
    requires channels >= 1 && i < n <= |line| <= |previous|
    ensures var row := Unfilter(kind, line, previous, channels, n);
            row[i] == Add(line[i], Predict(kind, Before(row, i, channels), previous[i], Before(previous, i, channels)))
  {
    if i < n - 1 {
      UnfilterAt(kind, line, previous, channels, n - 1, i);
    }
  }

  predicate IsByteAt(kind: byte, line: seq<byte>, previous: seq<byte>, channels: nat, row: seq<byte>, i: nat)
    requires channels >= 1 && i < |row| == |line| <= |previous|
  {
    IsByte(kind, line[i], if i >= channels then row[i - channels] else 0, previous[i],
           if i >= channels then previous[i - channels] else 0, row[i])
  }

  /** `row` is what `line` stores, byte by byte. */
  predicate IsRow(kind: byte, line: seq<byte>, previous: seq<byte>, channels: nat, row: seq<byte>)
    requires channels >= 1 && |line| <= |previous|
  {
    |row| == |line| && forall i: nat | i < |row| :: IsByteAt(kind, line, previous, channels, row, i)
  }

  /** Undoing a filter gives the row the standard says is stored: each byte the
      one stored, plus, modulo 256, what its filter has. By `OneRow` there is no
      other. */
  lemma UnfilteredIs(kind: byte, line: seq<byte>, previous: seq<byte>, channels: nat)
    requires channels >= 1 && |line| <= |previous|
    ensures IsRow(kind, line, previous, channels, Unfiltered(kind, line, previous, channels))
  {
    var row := Unfiltered(kind, line, previous, channels);
    forall i: nat | i < |row|
      ensures IsByteAt(kind, line, previous, channels, row, i)
    {
      UnfilterAt(kind, line, previous, channels, |line|, i);
      ByteIs(kind, line[i], Before(row, i, channels), previous[i], Before(previous, i, channels));
    }
  }

  lemma OneByte(kind: byte, stored: byte, left: byte, up: byte, corner: byte, a: byte, b: byte)
    requires IsByte(kind, stored, left, up, corner, a) && IsByte(kind, stored, left, up, corner, b)
    ensures a == b
  {
  }

  lemma {:induction false} OneRow(kind: byte, line: seq<byte>, previous: seq<byte>, channels: nat, a: seq<byte>, b: seq<byte>, n: nat)
    requires channels >= 1 && |line| <= |previous| && n <= |line|
    requires IsRow(kind, line, previous, channels, a) && IsRow(kind, line, previous, channels, b)
    ensures a[..n] == b[..n]
  {
    if n > 0 {
      var i := n - 1;
      OneRow(kind, line, previous, channels, a, b, i);
      assert i >= channels ==> a[i - channels] == a[..i][i - channels] == b[..i][i - channels] == b[i - channels];
      assert IsByteAt(kind, line, previous, channels, a, i) && IsByteAt(kind, line, previous, channels, b, i);
      OneByte(kind, line[i], if i >= channels then a[i - channels] else 0, previous[i],
              if i >= channels then previous[i - channels] else 0, a[i], b[i]);
      assert a[..n] == a[..i] + [a[i]] && b[..n] == b[..i] + [b[i]];
    }
  }

  /** And applying it again gives what was stored: no two rows are stored alike. */
  lemma UnfilterUndone(kind: byte, line: seq<byte>, previous: seq<byte>, channels: nat)
    requires channels >= 1 && |line| <= |previous|
    ensures Filter(kind, Unfiltered(kind, line, previous, channels), previous, channels) == line
  {
    var row := Unfiltered(kind, line, previous, channels);
    forall i | 0 <= i < |line|
      ensures Filter(kind, row, previous, channels)[i] == line[i]
    {
      UnfilterAt(kind, line, previous, channels, |line|, i);
      AddSubtract(line[i], Predict(kind, Before(row, i, channels), previous[i], Before(previous, i, channels)));
    }
  }

  // ------------------------------------------------------------- rows

  /** Whether undoing a row reads past what there is of it, or of the row before. */
  predicate OutOf(kind: byte, have: nat, before: nat, stride: nat, channels: nat) {
    before < stride || (1 <= kind <= 4 && have < stride) || have + channels < stride
  }

  /** What goes before the first row. */
  function Blank(stride: nat): seq<byte> {
    seq(stride, _ => 0)
  }

  /** Whether there is a row at the start of `raw`, given the length of the one
      before it. */
  predicate HasRow(raw: seq<byte>, before: nat, stride: nat, channels: nat) {
    raw != [] && !OutOf(raw[0], |First(raw[1..], stride)|, before, stride, channels)
  }

  /** That row. */
  function RowAt(raw: seq<byte>, stride: nat, channels: nat, previous: seq<byte>): seq<byte>
    requires channels >= 1 && HasRow(raw, |previous|, stride, channels)
  {
    var stored := First(raw[1..], stride);
    Unfiltered(raw[0], stored, previous, channels)
  }

  function ReadOn(raw: seq<byte>, n: nat, stride: nat, channels: nat, previous: seq<byte>): Result<seq<seq<byte>>, Error>
    requires channels >= 1
    decreases n
  {
    if n == 0 then Ok([])
    else if !HasRow(raw, |previous|, stride, channels) then Err(OutOfRange)
    else
      var row := RowAt(raw, stride, channels, previous);
      RowFirst(row, ReadOn(Later(raw, stride + 1), n - 1, stride, channels, row))
  }

  /** The first `n` rows of `raw`, `stride` bytes each, after the row `previous`. */
  function Rows(raw: seq<byte>, n: nat, stride: nat, channels: nat, previous: seq<byte>): Result<seq<seq<byte>>, Error>
    requires channels >= 1
  {
    ReadOn(raw, n, stride, channels, previous)
  }

  lemma RowsIs(raw: seq<byte>, n: nat, stride: nat, channels: nat, previous: seq<byte>)
    requires channels >= 1
    ensures Rows(raw, n, stride, channels, previous) ==
            if n == 0 then Ok([])
            else if !HasRow(raw, |previous|, stride, channels) then Err(OutOfRange)
            else
              var row := RowAt(raw, stride, channels, previous);
              RowFirst(row, Rows(Later(raw, stride + 1), n - 1, stride, channels, row))
  {
  }

  function RowFirst(row: seq<byte>, more: Result<seq<seq<byte>>, Error>): Result<seq<seq<byte>>, Error> {
    if more.Err? then more else Ok([row] + more.value)
  }

  /** An image as a PNG stores it, each row by its own filter. */
  function Encoded(image: seq<seq<byte>>, kinds: seq<byte>, channels: nat, previous: seq<byte>): seq<byte>
    requires channels >= 1 && |kinds| == |image|
    requires forall y | 0 <= y < |image| :: |image[y]| == |previous|
  {
    if image == [] then []
    else [kinds[0]] + Filter(kinds[0], image[0], previous, channels) + Encoded(image[1..], kinds[1..], channels, image[0])
  }

  lemma FirstRow(raw: seq<byte>, kind: byte, line: seq<byte>, rest: seq<byte>, stride: nat)
    requires raw == [kind] + line + rest && |line| == stride
    ensures raw != [] && raw[0] == kind && First(raw[1..], stride) == line && Later(raw, stride + 1) == rest
  {
    assert raw[1..] == line + rest;
    ReadExactly(line, rest);
    ReadExactly([kind] + line, rest);
  }

  lemma StoredRow(row: seq<byte>, kind: byte, more: seq<byte>, n: nat, stride: nat, channels: nat, previous: seq<byte>)
    requires channels >= 1 && |row| == |previous| == stride && n > 0
    ensures Rows([kind] + Filter(kind, row, previous, channels) + more, n, stride, channels, previous)
            == RowFirst(row, Rows(more, n - 1, stride, channels, row))
  {
    var line := Filter(kind, row, previous, channels);
    FirstRow([kind] + line + more, kind, line, more, stride);
    FilterUndone(kind, row, previous, channels, |row|);
    assert row[..|row|] == row;
    RowsIs([kind] + line + more, n, stride, channels, previous);
  }

  lemma EncodedFirst(image: seq<seq<byte>>, kinds: seq<byte>, channels: nat, previous: seq<byte>, rest: seq<byte>)
    requires channels >= 1 && |kinds| == |image| && image != []
    requires forall y | 0 <= y < |image| :: |image[y]| == |previous|
    ensures Encoded(image, kinds, channels, previous) + rest
            == [kinds[0]] + Filter(kinds[0], image[0], previous, channels)
               + (Encoded(image[1..], kinds[1..], channels, image[0]) + rest)
  {
    Regrouped([kinds[0]] + Filter(kinds[0], image[0], previous, channels),
              Encoded(image[1..], kinds[1..], channels, image[0]), rest);
  }

  /** For any image and any choice of filters, the rows asked for come back, and
      no more are read. */
  lemma {:induction false} ImageRoundTrip(image: seq<seq<byte>>, kinds: seq<byte>, stride: nat, channels: nat, previous: seq<byte>,
                                          rest: seq<byte>, wanted: nat)
    requires channels >= 1 && |kinds| == |image| && wanted <= |image|
    requires |previous| == stride && forall y | 0 <= y < |image| :: |image[y]| == stride
    ensures Rows(Encoded(image, kinds, channels, previous) + rest, wanted, stride, channels, previous) == Ok(image[..wanted])
    decreases wanted
  {
    RowsIs(Encoded(image, kinds, channels, previous) + rest, wanted, stride, channels, previous);
    if wanted > 0 {
      var more := Encoded(image[1..], kinds[1..], channels, image[0]) + rest;
      EncodedFirst(image, kinds, channels, previous, rest);
      StoredRow(image[0], kinds[0], more, wanted, stride, channels, previous);
      ImageRoundTrip(image[1..], kinds[1..], stride, channels, image[0], rest, wanted - 1);
      FrontRows(image, wanted);
    }
  }

  lemma FrontRows(image: seq<seq<byte>>, wanted: nat)
    requires 0 < wanted <= |image|
    ensures RowFirst(image[0], Ok(image[1..][..wanted - 1])) == Ok(image[..wanted])
  {
    assert image[..wanted] == [image[0]] + image[1..][..wanted - 1];
  }

  /** Whatever is read, fewer rows are the first of more. */
  lemma {:induction false} FewerRows(raw: seq<byte>, n: nat, m: nat, stride: nat, channels: nat, previous: seq<byte>)
    requires channels >= 1 && n <= m && Rows(raw, m, stride, channels, previous).Ok?
    ensures |Rows(raw, m, stride, channels, previous).value| == m
    ensures Rows(raw, n, stride, channels, previous) == Ok(Rows(raw, m, stride, channels, previous).value[..n])
    decreases m
  {
    RowsIs(raw, n, stride, channels, previous);
    RowsIs(raw, m, stride, channels, previous);
    if m > 0 {
      var row := RowAt(raw, stride, channels, previous);
      var left := Later(raw, stride + 1);
      FewerRows(left, if n == 0 then 0 else n - 1, m - 1, stride, channels, row);
      var more := Rows(left, m - 1, stride, channels, row).value;
      assert n > 0 ==> ([row] + more)[..n] == [row] + more[..n - 1];
    }
  }

  // ------------------------------------------------------------- in place

  /** A row of which the first `n` bytes are done, and the rest as stored. */
  predicate Done(line: seq<byte>, stored: seq<byte>, kind: byte, previous: seq<byte>, channels: nat, n: nat) {
    && channels >= 1 && |line| == |stored| && n <= |line| && n <= |previous|
    && line[..n] == Unfilter(kind, stored, previous, channels, n)
    && line[n..] == stored[n..]
  }

  lemma OneMoreDone(line: seq<byte>, stored: seq<byte>, kind: byte, previous: seq<byte>, channels: nat, n: nat)
    requires Done(line, stored, kind, previous, channels, n) && n < |line| && n < |previous|
    ensures var next := Add(line[n], Predict(kind, Before(line, n, channels), previous[n], Before(previous, n, channels)));
            Done(line[n := next], stored, kind, previous, channels, n + 1)
  {
    var row := Unfilter(kind, stored, previous, channels, n);
    assert line[n] == line[n..][0] == stored[n];
    assert Before(line, n, channels) == Before(row, n, channels);
    var next := Add(line[n], Predict(kind, Before(line, n, channels), previous[n], Before(previous, n, channels)));
    assert line[n := next][..n + 1] == line[..n] + [next];
    assert line[n := next][n + 1..] == line[n..][1..];
  }

  /** Undo a row's filter where it is; or stop, having read past what there is. */
  method UnfilterInPlace(kind: byte, line: array<byte>, previous: array<byte>, stride: nat, channels: nat) returns (ok: bool)
    requires channels >= 1 && line != previous && line.Length <= stride
    modifies line
    ensures ok <==> !OutOf(kind, line.Length, previous.Length, stride, channels)
    ensures ok ==> line.Length <= previous.Length
                   && line[..] == Unfiltered(kind, old(line[..]), previous[..], channels)
                   && IsRow(kind, old(line[..]), previous[..], channels, line[..])
  {
    ghost var stored := line[..];
    for i := 0 to stride
      invariant i <= previous.Length && i <= line.Length + channels && (1 <= kind <= 4 ==> i <= line.Length)
      invariant Done(line[..], stored, kind, previous[..], channels, Least(i, line.Length))
    {
      if (i >= channels && i - channels >= line.Length) || i >= previous.Length {
        return false;
      }
      var left := if i >= channels then line[i - channels] else 0;
      var up := previous[i];
      if i < line.Length {
        OneMoreDone(line[..], stored, kind, previous[..], channels, i);
      }
      if 1 <= kind <= 4 {
        if i >= line.Length {
          return false;
        }
        var corner := if i >= channels then previous[i - channels] else 0;
        line[i] := Add(line[i], Predict(kind, left, up, corner));
      } else if i < line.Length {
        AddSubtract(line[i], 0);
        assert line[..] == line[..][i := line[i]];
      }
    }
    assert line[..line.Length] == line[..];
    UnfilteredIs(kind, stored, previous[..], channels);
    return true;
  }

  // ------------------------------------------------------------- the rows wanted

  /** Where row `y` starts. */
  function Start(y: nat, stride: nat): nat {
    if y == 0 then 0 else Start(y - 1, stride) + stride + 1
  }

  lemma {:induction false} StartIs(y: nat, stride: nat)
    ensures Start(y, stride) == y * (stride + 1)
  {
    if y > 0 {
      StartIs(y - 1, stride);
    }
  }

  /** What there is from row `y` on. */
  function From(raw: seq<byte>, y: nat, stride: nat): seq<byte> {
    Later(raw, Start(y, stride))
  }

  lemma FromNext(raw: seq<byte>, y: nat, stride: nat)
    ensures Later(From(raw, y, stride), stride + 1) == From(raw, y + 1, stride) && From(raw, 0, stride) == raw
  {
    LaterAgain(raw, Start(y, stride), stride + 1);
  }

  lemma LaterAgain(raw: seq<byte>, a: nat, b: nat)
    ensures Later(Later(raw, a), b) == Later(raw, a + b)
  {
  }

  method StartOf(y: nat, stride: nat, ghost raw: seq<byte>) returns (start: nat)
    ensures Later(raw, start) == From(raw, y, stride)
  {
    StartIs(y, stride);
    return y * (stride + 1);
  }

  /** What is left to read: so many rows of these bytes, after this one. */
  datatype Left = Left(raw: seq<byte>, n: nat, previous: seq<byte>)

  function RowsLeft(left: Left, stride: nat, channels: nat): Result<seq<seq<byte>>, Error>
    requires channels >= 1
  {
    Rows(left.raw, left.n, stride, channels, left.previous)
  }

  /** What is left once the next row is read. */
  function Next(left: Left, stride: nat, channels: nat): Left
    requires channels >= 1 && left.n > 0 && HasRow(left.raw, |left.previous|, stride, channels)
  {
    Left(Later(left.raw, stride + 1), left.n - 1, RowAt(left.raw, stride, channels, left.previous))
  }

  /** What the next row adds, if there is one. */
  lemma NextRow(all: Result<seq<seq<byte>>, Error>, rows: seq<seq<byte>>, left: Left, stride: nat, channels: nat)
    requires channels >= 1 && left.n > 0 && all == RowsFirst(rows, RowsLeft(left, stride, channels))
    ensures if HasRow(left.raw, |left.previous|, stride, channels)
            then var next := Next(left, stride, channels);
                 all == RowsFirst(rows + [next.previous], RowsLeft(next, stride, channels))
            else all == Err(OutOfRange)
  {
    RowsIs(left.raw, left.n, stride, channels, left.previous);
    if HasRow(left.raw, |left.previous|, stride, channels) {
      var next := Next(left, stride, channels);
      RowsFirstMore(rows, next.previous, RowsLeft(next, stride, channels));
    }
  }

  /** The row at `start`, undone in place after the row before it; what is left
      is then `next`. */
  method ReadRow(raw: seq<byte>, start: nat, stride: nat, channels: nat, previous: array<byte>, rows: seq<seq<byte>>,
                 ghost left: Left, ghost all: Result<seq<seq<byte>>, Error>)
    returns (row: Option<array<byte>>, more: seq<seq<byte>>, ghost next: Left)
    requires channels >= 1 && left.n > 0 && left.raw == Later(raw, start) && left.previous == previous[..]
    requires all == RowsFirst(rows, RowsLeft(left, stride, channels))
    ensures row.None? ==> all == Err(OutOfRange)
    ensures row.Some? ==>
              && next.previous == row.value[..] && next.n == left.n - 1 && next.raw == Later(left.raw, stride + 1)
              && all == RowsFirst(more, RowsLeft(next, stride, channels))
  {
    NextRow(all, rows, left, stride, channels);
    next := left;
    if start >= |raw| {
      return None, rows, left;
    }
    var stored := First(raw[start + 1..], stride);
    LeftParts(raw, start, left.raw);
    var current := new byte[|stored|](i requires 0 <= i < |stored| => stored[i]);
    assert current[..] == stored;
    var ok := UnfilterInPlace(raw[start], current, previous, stride, channels);
    if !ok {
      return None, rows, left;
    }
    return Some(current), rows + [current[..]], Next(left, stride, channels);
  }

  lemma LeftParts(raw: seq<byte>, start: nat, left: seq<byte>)
    requires start < |raw| && left == Later(raw, start)
    ensures left != [] && left[0] == raw[start] && left[1..] == raw[start + 1..]
  {
  }

  function RowsFirst(rows: seq<seq<byte>>, more: Result<seq<seq<byte>>, Error>): Result<seq<seq<byte>>, Error> {
    if more.Err? then more else Ok(rows + more.value)
  }

  lemma RowsFirstMore(rows: seq<seq<byte>>, row: seq<byte>, more: Result<seq<seq<byte>>, Error>)
    ensures RowsFirst(rows, RowFirst(row, more)) == RowsFirst(rows + [row], more)
    ensures RowsFirst([], more) == more && RowsFirst(rows, Ok([])) == Ok(rows)
  {
    assert rows + [] == rows;
    if more.Ok? {
      assert [] + more.value == more.value;
      assert rows + ([row] + more.value) == (rows + [row]) + more.value;
    }
  }

  method BlankRow(stride: nat) returns (row: array<byte>)
    ensures fresh(row) && row[..] == Blank(stride)
  {
    row := new byte[stride](_ => 0);
  }

  /** When no rows are left, those read are all. */
  lemma NoneLeft(all: Result<seq<seq<byte>>, Error>, rows: seq<seq<byte>>, left: Left, stride: nat, channels: nat)
    requires channels >= 1 && left.n == 0 && all == RowsFirst(rows, RowsLeft(left, stride, channels))
    ensures all == Ok(rows)
  {
    RowsIs(left.raw, left.n, stride, channels, left.previous);
    RowsFirstMore(rows, [], Ok([]));
  }

  lemma AllLeft(all: Result<seq<seq<byte>>, Error>)
    ensures all == RowsFirst([], all)
  {
    RowsFirstMore([], [], all);
  }

  /** The first `wanted` rows. */
  method ReadRows(raw: seq<byte>, wanted: nat, stride: nat, channels: nat) returns (r: Result<seq<seq<byte>>, Error>)
    requires channels >= 1
    ensures r == Rows(raw, wanted, stride, channels, Blank(stride))
  {
    var previous := BlankRow(stride);
    var rows: seq<seq<byte>> := [];
    ghost var left := Left(raw, wanted, Blank(stride));
    ghost var all := RowsLeft(left, stride, channels);
    AllLeft(all);
    FromNext(raw, 0, stride);
    for y := 0 to wanted
      invariant left.n == wanted - y && left.raw == From(raw, y, stride) && left.previous == previous[..]
      invariant all == RowsFirst(rows, RowsLeft(left, stride, channels))
    {
      var start := StartOf(y, stride, raw);
      FromNext(raw, y, stride);
      var row, more, next := ReadRow(raw, start, stride, channels, previous, rows, left, all);
      if row.None? {
        return Err(OutOfRange);
      }
      previous, rows, left := row.value, more, next;
    }
    NoneLeft(all, rows, left, stride, channels);
    return Ok(rows);
  }

  // ------------------------------------------------------------- chunks

  datatype Chunk = Chunk(kind: seq<byte>, body: seq<byte>, check: seq<byte>) {
    predicate Valid() {
      |kind| == 4 && |check| == 4 && |body| < 0x1_0000_0000
    }

    function Bytes(): seq<byte> {
      Pack(|body|, 4) + kind + body + check
    }
  }

  /** What walking the chunks collects: the last header, and the data so far. */
  datatype Found = Found(header: Option<seq<byte>>, idat: seq<byte>)

  function Collect(found: Found, kind: seq<byte>, body: seq<byte>): Found {
    if kind == IHDR then found.(header := Some(body))
    else if kind == IDAT then found.(idat := found.idat + body)
    else found
  }

  /** A header must have 13 bytes to unpack. */
  predicate Unpacks(kind: seq<byte>, body: seq<byte>) {
    kind == IHDR ==> |body| == 13
  }

  function Walk(data: seq<byte>, found: Found): Result<Found, Error> {
    if data == [] then Ok(found)
    else if |data| < 8 then Err(Unpacking)
    else
      var length, kind := Unpack(data[..4]), data[4..8];
      var body := First(data[8..], length);
      if !Unpacks(kind, body) then Err(Unpacking)
      else Walk(Later(data, 12 + length), Collect(found, kind, body))
  }

  function CollectAll(chunks: seq<Chunk>, found: Found): Found {
    if chunks == [] then found else CollectAll(chunks[1..], Collect(found, chunks[0].kind, chunks[0].body))
  }

  function ChunkBytes(chunks: seq<Chunk>): seq<byte> {
    if chunks == [] then [] else chunks[0].Bytes() + ChunkBytes(chunks[1..])
  }

  lemma ChunkRead(chunk: Chunk, rest: seq<byte>)
    requires chunk.Valid()
    ensures var data := chunk.Bytes() + rest;
            && |data| >= 12 && Unpack(data[..4]) == |chunk.body| && data[4..8] == chunk.kind
            && First(data[8..], |chunk.body|) == chunk.body && Later(data, 12 + |chunk.body|) == rest
  {
    var data := chunk.Bytes() + rest;
    var length := Pack(|chunk.body|, 4);
    FourBytes();
    PackUnpacks(|chunk.body|, 4);
    ReadExactly(chunk.Bytes(), rest);
    assert data[..4] == length;
    assert data[8..] == chunk.body + (chunk.check + rest);
    ReadExactly(chunk.body, chunk.check + rest);
  }

  /** Chunks written are chunks read, their checks aside. */
  lemma {:induction false} ChunksRead(chunks: seq<Chunk>, found: Found)
    requires forall i | 0 <= i < |chunks| :: chunks[i].Valid() && Unpacks(chunks[i].kind, chunks[i].body)
    ensures Walk(ChunkBytes(chunks), found) == Ok(CollectAll(chunks, found))
  {
    if chunks != [] {
      ChunkRead(chunks[0], ChunkBytes(chunks[1..]));
      ChunksRead(chunks[1..], Collect(found, chunks[0].kind, chunks[0].body));
    }
  }

  // ------------------------------------------------------------- a picture

  datatype Header = Header(width: nat, height: nat, depth: byte, colour: byte, interlace: byte)

  function HeaderIn(body: seq<byte>): Header
    requires |body| == 13
  {
    Header(Unpack(body[..4]), Unpack(body[4..8]), body[8], body[9], body[12])
  }

  function Channels(colour: byte): Option<nat> {
    if colour == 0 then Some(1)
    else if colour == 2 then Some(3)
    else if colour == 4 then Some(2)
    else if colour == 6 then Some(4)
    else None
  }

  /** A header's numbers, as a file has them, are those read of it. */
  lemma HeaderRead(width: nat, height: nat, depth: byte, colour: byte, compression: byte, filter: byte, interlace: byte)
    requires width < 0x1_0000_0000 && height < 0x1_0000_0000
    ensures var body := Pack(width, 4) + Pack(height, 4) + [depth, colour, compression, filter, interlace];
            |body| == 13 && HeaderIn(body) == Header(width, height, depth, colour, interlace)
  {
    var body := Pack(width, 4) + Pack(height, 4) + [depth, colour, compression, filter, interlace];
    FourBytes();
    PackUnpacks(width, 4);
    PackUnpacks(height, 4);
    assert body[..4] == Pack(width, 4) && body[4..8] == Pack(height, 4);
  }

  datatype Picture = Picture(width: nat, height: nat, channels: nat, rows: seq<seq<byte>>)

  /** How many rows are wanted: two bands of `band` rows, one at least each, and
      no more than there are. */
  function Wanted(height: nat, band: nat): nat {
    Least(height, 2 * if band < 1 then 1 else band)
  }

  /** The picture in `data`; `inflate` undoes zlib's compression, and `band` is
      how many rows of so many make a band. */
  function PictureIn(data: seq<byte>, inflate: seq<byte> -> Option<seq<byte>>, band: nat -> nat): Result<Picture, Error> {
    if First(data, 8) != SIGNATURE then Err(NotPng)
    else
      var walked := Walk(data[8..], Found(None, []));
      if walked.Err? then Err(walked.error)
      else if walked.value.header.None? || |walked.value.header.value| != 13 then Err(NoHeader)
      else PictureOf(HeaderIn(walked.value.header.value), inflate(walked.value.idat), band)
  }

  function PictureOf(h: Header, raw: Option<seq<byte>>, band: nat -> nat): Result<Picture, Error> {
    var channels := Channels(h.colour);
    if h.depth != 8 || h.interlace != 0 || channels.None? then Err(Unsupported)
    else if raw.None? then Err(BadData)
    else
      var stride := h.width * channels.value;
      var rows := Rows(raw.value, Wanted(h.height, band(h.height)), stride, channels.value, Blank(stride));
      if rows.Err? then Err(rows.error) else Ok(Picture(h.width, h.height, channels.value, rows.value))
  }

  /** A file that does not begin as a PNG does is none; its header and its data are
      in the chunks so named, the data one piece after another. */
  lemma MarksAre(data: seq<byte>, inflate: seq<byte> -> Option<seq<byte>>, band: nat -> nat, found: Found, body: seq<byte>)
    ensures PictureIn(data, inflate, band) == Err(NotPng) <==>
            |data| < 8 || data[..8] != [137, 80, 78, 71, 13, 10, 26, 10]
    ensures Collect(found, [73, 72, 68, 82], body) == Found(Some(body), found.idat)
    ensures Collect(found, [73, 68, 65, 84], body) == Found(found.header, found.idat + body)
  {
    if |data| >= 8 && data[..8] == SIGNATURE {
      NeverNotPng(data[8..], Found(None, []));
      var walked := Walk(data[8..], Found(None, []));
      if walked.Ok? && walked.value.header.Some? && |walked.value.header.value| == 13 {
        OfNotNotPng(HeaderIn(walked.value.header.value), inflate(walked.value.idat), band);
      }
    }
  }

  lemma {:induction false} NeverNotPng(data: seq<byte>, found: Found)
    ensures Walk(data, found) != Err(NotPng)
  {
    if |data| >= 8 {
      var length, kind := Unpack(data[..4]), data[4..8];
      NeverNotPng(Later(data, 12 + length), Collect(found, kind, First(data[8..], length)));
    }
  }

  lemma OfNotNotPng(h: Header, raw: Option<seq<byte>>, band: nat -> nat)
    ensures PictureOf(h, raw, band) != Err(NotPng)
  {
    var channels := Channels(h.colour);
    if channels.Some? && raw.Some? {
      OnlyOutOfRange(raw.value, Wanted(h.height, band(h.height)), h.width * channels.value, channels.value,
                     Blank(h.width * channels.value));
    }
  }

  /** What a picture read is: one of eight bits a channel, not interlaced, grey or
      colour with or without transparency; of its rows, twice the band's or two
      at least, and no more than there are, each of as many bytes. */
  lemma PictureIs(h: Header, raw: Option<seq<byte>>, band: nat -> nat)
    ensures var r := PictureOf(h, raw, band);
            && (r == Err(Unsupported) <==> h.depth != 8 || h.interlace != 0 || h.colour !in {0, 2, 4, 6})
            && (r.Ok? ==>
                  && r.value.width == h.width && r.value.height == h.height
                  && r.value.channels == (if h.colour == 0 then 1 else if h.colour == 2 then 3
                                          else if h.colour == 4 then 2 else 4)
                  && |r.value.rows| == (var rows := if band(h.height) <= 1 then 2 else 2 * band(h.height);
                                        if h.height < rows then h.height else rows)
                  && forall y | 0 <= y < |r.value.rows| :: |r.value.rows[y]| <= h.width * r.value.channels)
  {
    var channels := Channels(h.colour);
    if PictureOf(h, raw, band).Ok? {
      var stride := h.width * channels.value;
      var wanted := Wanted(h.height, band(h.height));
      FewerRows(raw.value, wanted, wanted, stride, channels.value, Blank(stride));
      RowsAtMost(raw.value, wanted, stride, channels.value, Blank(stride));
    } else if channels.Some? && raw.Some? {
      var stride := h.width * channels.value;
      OnlyOutOfRange(raw.value, Wanted(h.height, band(h.height)), stride, channels.value, Blank(stride));
    }
  }

  lemma {:induction false} OnlyOutOfRange(raw: seq<byte>, n: nat, stride: nat, channels: nat, previous: seq<byte>)
    requires channels >= 1
    ensures var r := Rows(raw, n, stride, channels, previous); r.Err? ==> r.error == OutOfRange
    decreases n
  {
    RowsIs(raw, n, stride, channels, previous);
    if n > 0 && HasRow(raw, |previous|, stride, channels) {
      OnlyOutOfRange(Later(raw, stride + 1), n - 1, stride, channels, RowAt(raw, stride, channels, previous));
    }
  }

  lemma {:induction false} RowsAtMost(raw: seq<byte>, n: nat, stride: nat, channels: nat, previous: seq<byte>)
    requires channels >= 1
    ensures var r := Rows(raw, n, stride, channels, previous);
            r.Ok? ==> forall y | 0 <= y < |r.value| :: |r.value[y]| <= stride
    decreases n
  {
    RowsIs(raw, n, stride, channels, previous);
    if n > 0 && HasRow(raw, |previous|, stride, channels) {
      var row := RowAt(raw, stride, channels, previous);
      RowsAtMost(Later(raw, stride + 1), n - 1, stride, channels, row);
      assert |row| <= stride;
    }
  }

  /** What walking on from `pos` collects. */
  function WalkOn(data: seq<byte>, pos: nat, found: Found): Result<Found, Error> {
    Walk(Later(data, pos), found)
  }

  lemma WalkAt(data: seq<byte>, pos: nat, length: nat, kind: seq<byte>, body: seq<byte>, found: Found)
    requires pos + 8 <= |data| && length == Unpack(data[pos..pos + 4]) && kind == data[pos + 4..pos + 8]
    requires body == First(data[pos + 8..], length)
    ensures WalkOn(data, pos, found) ==
            if !Unpacks(kind, body) then Err(Unpacking) else WalkOn(data, pos + 12 + length, Collect(found, kind, body))
  {
    ChunkAt(data, pos);
    LaterAgain(data, pos, 12 + length);
  }

  /** The chunks of a file, walked from its signature on. */
  method WalkChunks(data: seq<byte>) returns (r: Result<Found, Error>)
    requires |data| >= 8
    ensures r == Walk(data[8..], Found(None, []))
    ensures r.Ok? && r.value.header.Some? ==> |r.value.header.value| == 13
  {
    var pos := 8;
    var found := Found(None, []);
    ghost var all := WalkOn(data, pos, found);
    assert Later(data, 8) == data[8..];
    while pos < |data|
      invariant 8 <= pos && all == WalkOn(data, pos, found)
      invariant found.header.Some? ==> |found.header.value| == 13
      decreases |data| - pos
    {
      if |data| < pos + 8 {
        assert 0 < |Later(data, pos)| < 8;
        return Err(Unpacking);
      }
      var length, kind := Unpack(data[pos..pos + 4]), data[pos + 4..pos + 8];
      var body := First(data[pos + 8..], length);
      WalkAt(data, pos, length, kind, body, found);
      if kind == IHDR && |body| != 13 {
        return Err(Unpacking);
      }
      found := Collect(found, kind, body);
      pos := pos + 12 + length;
    }
    assert Later(data, pos) == [];
    return Ok(found);
  }

  lemma ChunkAt(data: seq<byte>, pos: nat)
    requires pos + 8 <= |data|
    ensures var left := Later(data, pos);
            && |left| >= 8 && left[..4] == data[pos..pos + 4] && left[4..8] == data[pos + 4..pos + 8]
            && left[8..] == data[pos + 8..]
  {
  }

  /** The picture's first rows, as the file stores them. */
  method ReadPicture(data: seq<byte>, inflate: seq<byte> -> Option<seq<byte>>, band: nat -> nat)
    returns (r: Result<Picture, Error>)
    ensures r == PictureIn(data, inflate, band)
  {
    if First(data, 8) != SIGNATURE {
      return Err(NotPng);
    }
    var walked := WalkChunks(data);
    if walked.Err? {
      return Err(walked.error);
    }
    if walked.value.header.None? {
      return Err(NoHeader);
    }
    var h := HeaderIn(walked.value.header.value);
    var channels := Channels(h.colour);
    if h.depth != 8 || h.interlace != 0 || channels.None? {
      return Err(Unsupported);
    }
    var raw := inflate(walked.value.idat);
    if raw.None? {
      return Err(BadData);
    }
    var stride := h.width * channels.value;
    var rows := ReadRows(raw.value, Wanted(h.height, band(h.height)), stride, channels.value);
    if rows.Err? {
      return Err(rows.error);
    }
    return Ok(Picture(h.width, h.height, channels.value, rows.value));
  }

  lemma PictureOfImage(h: Header, band: nat -> nat, channels: nat, image: seq<seq<byte>>, kinds: seq<byte>, rest: seq<byte>)
    requires h.depth == 8 && h.interlace == 0 && Channels(h.colour) == Some(channels) && |image| == |kinds| == h.height
    requires forall y | 0 <= y < |image| :: |image[y]| == h.width * channels
    ensures PictureOf(h, Some(Encoded(image, kinds, channels, Blank(h.width * channels)) + rest), band)
            == Ok(Picture(h.width, h.height, channels, image[..Wanted(h.height, band(h.height))]))
  {
    ImageRoundTrip(image, kinds, h.width * channels, channels, Blank(h.width * channels), rest, Wanted(h.height, band(h.height)));
  }

  /** A picture written is a picture read: any image of one to four channels,
      whichever filter each of its rows was stored by, however its data was cut
      into chunks and whatever other chunks lie between. */
  lemma PictureRoundTrip(chunks: seq<Chunk>, inflate: seq<byte> -> Option<seq<byte>>, band: nat -> nat, header: seq<byte>,
                         channels: nat, image: seq<seq<byte>>, kinds: seq<byte>, rest: seq<byte>)
    requires forall i | 0 <= i < |chunks| :: chunks[i].Valid() && Unpacks(chunks[i].kind, chunks[i].body)
    requires |header| == 13 && CollectAll(chunks, Found(None, [])).header == Some(header)
    requires var h := HeaderIn(header);
             && h.depth == 8 && h.interlace == 0 && Channels(h.colour) == Some(channels) && |image| == |kinds| == h.height
             && (forall y | 0 <= y < |image| :: |image[y]| == h.width * channels)
             && inflate(CollectAll(chunks, Found(None, [])).idat)
                == Some(Encoded(image, kinds, channels, Blank(h.width * channels)) + rest)
    ensures var h := HeaderIn(header);
            PictureIn(SIGNATURE + ChunkBytes(chunks), inflate, band)
            == Ok(Picture(h.width, h.height, channels, image[..Wanted(h.height, band(h.height))]))
  {
    ReadExactly(SIGNATURE, ChunkBytes(chunks));
    ChunksRead(chunks, Found(None, []));
    PictureOfImage(HeaderIn(header), band, channels, image, kinds, rest);
  }
}
