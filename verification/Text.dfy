/** Text as the program's string operations see it: splitting and joining,
    trimming, ASCII case, control characters and whole numbers. */
module Text {
  import opened Wrappers

  // ------------------------------------------------------------- splitting

  /** The pieces of `s` between the characters `d`: never none. */
  function Split(s: string, d: char): (r: seq<string>)
    ensures |r| >= 1
  {
    if s == "" then [""]
    else if s[0] == d then [""] + Split(s[1..], d)
    else
      var rest := Split(s[1..], d);
      [[s[0]] + rest[0]] + rest[1..]
  }

  function Join(parts: seq<string>, d: char): string {
    if |parts| == 0 then ""
    else if |parts| == 1 then parts[0]
    else parts[0] + [d] + Join(parts[1..], d)
  }

  /** No piece holds the separator, and joining the pieces gives the text
      back. */
  lemma {:induction false} JoinSplit(s: string, d: char)
    ensures Join(Split(s, d), d) == s
    ensures forall k | 0 <= k < |Split(s, d)| :: d !in Split(s, d)[k]
  {
    if s != "" {
      JoinSplit(s[1..], d);
      var rest := Split(s[1..], d);
      if s[0] != d {
        var r := Split(s, d);
        assert r[1..] == rest[1..];
        assert forall k | 1 <= k < |r| :: r[k] == rest[k];
        assert Join(r, d) == [s[0]] + Join(rest, d);
      } else {
        assert Split(s, d)[1..] == rest;
      }
    }
  }

  /** Splitting at a separator in the middle splits each side. */
  lemma {:induction false} SplitAt(a: string, b: string, d: char)
    ensures Split(a + [d] + b, d) == Split(a, d) + Split(b, d)
  {
    var s := a + [d] + b;
    if a == "" {
      assert s[1..] == b;
    } else {
      var ra, rb := Split(a[1..], d), Split(b, d);
      assert Split(s[1..], d) == ra + rb by {
        SplitAt(a[1..], b, d);
        assert s[1..] == a[1..] + [d] + b;
      }
      assert s[0] == a[0];
      PutFirst(a[0], d, ra, rb);
    }
  }

  /** A character before the first piece stays in the left part. */
  lemma PutFirst(c: char, d: char, left: seq<string>, right: seq<string>)
    requires |left| >= 1
    ensures [""] + (left + right) == ([""] + left) + right
    ensures [[c] + (left + right)[0]] + (left + right)[1..] == ([[c] + left[0]] + left[1..]) + right
  {
  }

  lemma {:induction false} SplitWhole(s: string, d: char)
    requires d !in s
    ensures Split(s, d) == [s]
  {
    if s != "" {
      assert s[0] in s;
      assert forall c | c in s[1..] :: c in s;
      SplitWhole(s[1..], d);
      assert s == [s[0]] + s[1..];
    }
  }

  /** Pieces without the separator read back as they were joined. */
  lemma {:induction false} SplitJoin(parts: seq<string>, d: char)
    requires |parts| >= 1
    requires forall k | 0 <= k < |parts| :: d !in parts[k]
    ensures Split(Join(parts, d), d) == parts
  {
    SplitWhole(parts[0], d);
    if |parts| == 1 {
      assert parts == [parts[0]];
    } else {
      SplitJoin(parts[1..], d);
      SplitAt(parts[0], Join(parts[1..], d), d);
      assert parts == [parts[0]] + parts[1..];
    }
  }

  // ------------------------------------------------------------- characters

  /** Unicode's `White_Space`, as trimming reads it. */
  predicate IsWhitespace(c: char) {
    var n := c as int;
    || 0x09 <= n <= 0x0d || n == 0x20 || n == 0x85 || n == 0xa0 || n == 0x1680
    || 0x2000 <= n <= 0x200a || n == 0x2028 || n == 0x2029 || n == 0x202f
    || n == 0x205f || n == 0x3000
  }

  /** One by one: the tab, the line breaks, the spaces, and no other. */
  lemma WhitespaceIs(c: char)
    ensures IsWhitespace(c) <==>
            c as int in {9, 10, 11, 12, 13, 32, 133, 160, 5760, 8192, 8193, 8194, 8195, 8196, 8197, 8198, 8199, 8200,
                         8201, 8202, 8232, 8233, 8239, 8287, 12288}
  {
  }

  /** Unicode's control characters, category Cc. */
  predicate IsControl(c: char) {
    var n := c as int;
    n < 0x20 || 0x7f <= n <= 0x9f
  }

  function TrimStart(s: string): string {
    if s != "" && IsWhitespace(s[0]) then TrimStart(s[1..]) else s
  }

  function TrimEnd(s: string): string {
    if s != "" && IsWhitespace(s[|s| - 1]) then TrimEnd(s[..|s| - 1]) else s
  }

  function Trim(s: string): string {
    TrimEnd(TrimStart(s))
  }

  /** What trimming leaves: a piece of the text with no whitespace at either
      end, and only whitespace around it. */
  lemma {:induction false} TrimLeaves(s: string)
    ensures Trim(s) == "" || (!IsWhitespace(Trim(s)[0]) && !IsWhitespace(Trim(s)[|Trim(s)| - 1]))
    ensures exists a, b :: s == a + Trim(s) + b && (forall c | c in a + b :: IsWhitespace(c))
  {
    var a := TrimStartLeaves(s);
    var b := TrimEndLeaves(TrimStart(s));
    assert s == a + Trim(s) + b;
  }

  lemma {:induction false} TrimStartLeaves(s: string) returns (a: string)
    ensures s == a + TrimStart(s) && forall c | c in a :: IsWhitespace(c)
    ensures TrimStart(s) == "" || !IsWhitespace(TrimStart(s)[0])
  {
    if s != "" && IsWhitespace(s[0]) {
      var rest := TrimStartLeaves(s[1..]);
      a := [s[0]] + rest;
      assert s == [s[0]] + s[1..];
    } else {
      a := "";
    }
  }

  lemma {:induction false} TrimEndLeaves(s: string) returns (b: string)
    ensures s == TrimEnd(s) + b && forall c | c in b :: IsWhitespace(c)
    ensures TrimEnd(s) == "" || !IsWhitespace(TrimEnd(s)[|TrimEnd(s)| - 1])
    ensures TrimEnd(s) != "" ==> TrimEnd(s)[0] == s[0]
  {
    if s != "" && IsWhitespace(s[|s| - 1]) {
      var rest := TrimEndLeaves(s[..|s| - 1]);
      b := rest + [s[|s| - 1]];
      assert s == s[..|s| - 1] + [s[|s| - 1]];
    } else {
      b := "";
    }
  }

  /** Text with no whitespace at either end is its own trimming. */
  lemma TrimTight(s: string)
    requires s == "" || (!IsWhitespace(s[0]) && !IsWhitespace(s[|s| - 1]))
    ensures Trim(s) == s
  {
  }

  predicate IsUpper(c: char) { 'A' <= c <= 'Z' }

  predicate IsDigit(c: char) { '0' <= c <= '9' }

  predicate IsAlphabetic(c: char) { 'A' <= c <= 'Z' || 'a' <= c <= 'z' }

  predicate IsAlphanumeric(c: char) { IsAlphabetic(c) || IsDigit(c) }

  function LowerChar(c: char): char {
    if IsUpper(c) then (c as int + 32) as char else c
  }

  /** `to_ascii_lowercase`. */
  function Lower(s: string): (r: string)
    ensures |r| == |s| && forall k | 0 <= k < |s| :: r[k] == LowerChar(s[k])
  {
    seq(|s|, k requires 0 <= k < |s| => LowerChar(s[k]))
  }

  /** The length of `s` in UTF-8, as `str::len` counts. */
  function Utf8Length(s: string): nat {
    if s == "" then 0
    else
      var n := s[0] as int;
      (if n < 0x80 then 1 else if n < 0x800 then 2 else if n < 0x10000 then 3 else 4)
      + Utf8Length(s[1..])
  }

  /** One byte up to U+007F, two up to U+07FF, three up to U+FFFF, then four. */
  lemma Utf8Is(c: char, rest: string)
    ensures var n := Utf8Length([c] + rest) - Utf8Length(rest);
            && (n == 1 <==> c as int <= 127) && (n == 2 <==> 128 <= c as int <= 2047)
            && (n == 3 <==> 2048 <= c as int <= 65535) && (n == 4 <==> 65536 <= c as int)
  {
    assert ([c] + rest)[1..] == rest;
  }

  /** The letters A to Z in lower case, and every other character as it is. */
  lemma LowerIs(s: string, i: nat)
    requires i < |s|
    ensures Lower(s)[i] as int == s[i] as int + if 65 <= s[i] as int <= 90 then 32 else 0
  {
  }

  // ------------------------------------------------------------- whole numbers

  /** One past the largest `usize`. */
  const USIZE: nat := 0x1_0000_0000_0000_0000

  function Digit(n: nat): char
    requires n < 10
  {
    ('0' as int + n) as char
  }

  /** A number, as `{}` prints it. */
  function Print(n: nat): (s: string)
    ensures |s| >= 1 && forall c | c in s :: IsDigit(c)
  {
    if n < 10 then [Digit(n)] else Print(n / 10) + [Digit(n % 10)]
  }

  /** The number `s`'s digits write, or none for anything but digits. */
  function Digits(s: string): Option<nat>
    decreases |s|
  {
    if s == "" then Some(0)
    else if !IsDigit(s[|s| - 1]) then None
    else
      match Digits(s[..|s| - 1])
      case None => None
      case Some(n) => Some(10 * n + (s[|s| - 1] as int - '0' as int))
  }

  /** `str::parse::<usize>`: an optional plus sign, at least one digit, and no
      more than a `usize` holds. */
  function ParseUsize(s: string): Option<nat> {
    var digits := if s != "" && s[0] == '+' then s[1..] else s;
    if digits == "" then None
    else
      match Digits(digits)
      case Some(n) => if n < USIZE then Some(n) else None
      case None => None
  }

  lemma {:induction false} DigitsPrint(n: nat)
    ensures Digits(Print(n)) == Some(n)
  {
    var s := Print(n);
    if n < 10 {
      assert s[..|s| - 1] == "";
    } else {
      DigitsPrint(n / 10);
      assert s[..|s| - 1] == Print(n / 10);
      assert s[|s| - 1] == Digit(n % 10);
    }
  }

  /** A printed `usize` parses back. */
  lemma ParsePrint(n: nat)
    requires n < USIZE
    ensures ParseUsize(Print(n)) == Some(n)
  {
    DigitsPrint(n);
    assert Print(n)[0] in Print(n);
  }
}
