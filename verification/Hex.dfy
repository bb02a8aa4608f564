/**
 Hexadecimal dumps of memory and their parser (hexmem and hex2mem of lib/misc.c).  A C
 string is a sequence of characters, and a buffer holds one if a '\0' follows it.
 */
module Hex {
  import opened Options
  import opened CStrings

  newtype Byte = x: int | 0 <= x < 256

  function HexChar(d: int, upper: bool): char
    requires 0 <= d < 16
  {
    if d >= 10 then ((d - 10) + (if upper then 'A' else 'a') as int) as char else (d + '0' as int) as char
  }

  predicate IsHexChar(c: char) { '0' <= c <= '9' || 'A' <= c <= 'F' || 'a' <= c <= 'f' }

  function HexValue(c: char): (d: int)
    requires IsHexChar(c)
    ensures 0 <= d < 16
  {
    if '0' <= c <= '9' then c as int - '0' as int
    else if 'A' <= c <= 'F' then 10 + (c as int - 'A' as int)
    else 10 + (c as int - 'a' as int)
  }

  /** The digits in the wanted case. */
  function Alphabet(upper: bool): string { if upper then "0123456789ABCDEF" else "0123456789abcdef" }

  lemma HexCharIs(d: int, upper: bool)
    requires 0 <= d < 16
    ensures HexChar(d, upper) == Alphabet(upper)[d]
  {
  }

  lemma HexCharValue(d: int, upper: bool)
    requires 0 <= d < 16
    ensures IsHexChar(HexChar(d, upper)) && HexValue(HexChar(d, upper)) == d
  {
  }

  function Pair(b: Byte, upper: bool): string { [HexChar(b as int / 16, upper), HexChar(b as int % 16, upper)] }

  function Digits(mem: seq<Byte>, upper: bool): (s: string)
    ensures |s| == 2 * |mem|
  {
    if mem == [] then [] else Digits(mem[..|mem| - 1], upper) + Pair(mem[|mem| - 1], upper)
  }

  lemma {:induction false} DigitsAt(mem: seq<Byte>, upper: bool, i: nat)
    requires i < |mem|
    ensures Digits(mem, upper)[2 * i] == HexChar(mem[i] as int / 16, upper)
    ensures Digits(mem, upper)[2 * i + 1] == HexChar(mem[i] as int % 16, upper)
    decreases |mem|
  {
    if i < |mem| - 1 { DigitsAt(mem[..|mem| - 1], upper, i); }
  }

  /** No letter of the other case. */
  ghost predicate OneCase(s: string, upper: bool) {
    forall c :: c in s ==> if upper then !('a' <= c <= 'f') else !('A' <= c <= 'F')
  }

  lemma {:induction false} DigitsOneCase(mem: seq<Byte>, upper: bool)
    ensures OneCase(Digits(mem, upper), upper)
    decreases |mem|
  {
    if mem != [] {
      DigitsOneCase(mem[..|mem| - 1], upper);
      HexCharIs(mem[|mem| - 1] as int / 16, upper);
      HexCharIs(mem[|mem| - 1] as int % 16, upper);
    }
  }

  function Dots(n: nat): string { seq(n, _ => '.') }

  /** How many leading bytes a dump with room for `c` bytes shows of `m`, and from where on it shows the rest. */
  function Left(m: nat, c: nat): nat
    requires 0 < c <= m
  {
    var d := m - c + 1;
    (m - d) / 2
  }

  function Right(m: nat, c: nat): nat
    requires 0 < c <= m
  {
    var d := m - c + 1;
    (m + d) / 2
  }

  /** Both ends of a memory that has more than `c` bytes. */
  function Ends(mem: seq<Byte>, c: nat, upper: bool): string
    requires 0 < c <= |mem|
  {
    Digits(mem[..Left(|mem|, c)], upper) + ".." + Digits(mem[Right(|mem|, c)..], upper)
  }

  /** The text of at most `b` characters, which is room for `c` bytes. */
  function Text(mem: seq<Byte>, b: nat, c: nat, upper: bool): string {
    if mem == [] then ""
    else if c >= |mem| then Digits(mem, upper)
    else if c < 3 then Dots(b)
    else Ends(mem, c, upper)
  }

  /** The text that hexmem leaves in a buffer of `size` characters. */
  function Dump(mem: seq<Byte>, size: nat, upper: bool): string
    requires 0 < size
  {
    Text(mem, size - 1, (size - 1) / 2, upper)
  }

  /**
   A dump that is cut short fills its room exactly: a true hex prefix, two dots and a true
   hex suffix that do not overlap and show one byte less than there is room for.
   */
  lemma CutShort(mem: seq<Byte>, size: nat, upper: bool)
    requires 0 < size && 3 <= (size - 1) / 2 < |mem|
    ensures var c, text := (size - 1) / 2, Dump(mem, size, upper); var l, r := Left(|mem|, c), Right(|mem|, c);
            && l < r <= |mem| && l + (|mem| - r) == c - 1 && |text| == 2 * c < size
            && text[..2 * l] == Digits(mem[..l], upper) && text[2 * l..2 * l + 2] == ".."
            && text[2 * l + 2..] == Digits(mem[r..], upper)
  {
  }

  /** A dump has the letters of the case that was asked for only. */
  lemma DumpOneCase(mem: seq<Byte>, size: nat, upper: bool)
    requires 0 < size
    ensures OneCase(Dump(mem, size, upper), upper)
  {
    var c := (size - 1) / 2;
    DigitsOneCase(mem, upper);
    if 0 < c <= |mem| {
      DigitsOneCase(mem[..Left(|mem|, c)], upper);
      DigitsOneCase(mem[Right(|mem|, c)..], upper);
    }
  }

  /** The length of the hexadecimal digits at the start of a string. */
  function HexRun(s: string): (n: nat)
    ensures n <= |s| && (forall i :: 0 <= i < n ==> IsHexChar(s[i])) && (n < |s| ==> !IsHexChar(s[n]))
  {
    if s == [] || !IsHexChar(s[0]) then 0 else 1 + HexRun(s[1..])
  }

  predicate Prefixed(s: string) { |s| >= 2 && s[0] == '0' && (s[1] == 'x' || s[1] == 'X') }

  function Unprefixed(s: string): string { if Prefixed(s) then s[2..] else s }

  function ByteAt(high: char, low: char): Byte
    requires IsHexChar(high) && IsHexChar(low)
  {
    (16 * HexValue(high) + HexValue(low)) as Byte
  }

  /** The bytes that pairs of digits stand for. */
  function Bytes(digits: string): (r: seq<Byte>)
    requires |digits| % 2 == 0 && forall i :: 0 <= i < |digits| ==> IsHexChar(digits[i])
    ensures |r| == |digits| / 2
    ensures forall i :: 0 <= i < |r| ==> r[i] == ByteAt(digits[2 * i], digits[2 * i + 1])
  {
    seq(|digits| / 2, i requires 0 <= i < |digits| / 2 => ByteAt(digits[2 * i], digits[2 * i + 1]))
  }

  /** What hex2mem makes of a string: nothing if there is an odd digit or more than `room` bytes. */
  function Parsed(s: string, room: nat): Option<seq<Byte>> {
    var t := Unprefixed(s);
    var n := HexRun(t);
    if n % 2 == 0 && n / 2 <= room then Some(Bytes(t[..n])) else None
  }

  lemma HexRunIs(s: string, n: nat)
    requires n <= |s| && (forall i :: 0 <= i < n ==> IsHexChar(s[i])) && (n < |s| ==> !IsHexChar(s[n]))
    ensures HexRun(s) == n
  {
  }

  lemma DigitsHex(mem: seq<Byte>, upper: bool, i: nat)
    requires i < 2 * |mem|
    ensures IsHexChar(Digits(mem, upper)[i])
  {
    DigitsAt(mem, upper, i / 2);
    HexCharValue(mem[i / 2] as int / 16, upper);
    HexCharValue(mem[i / 2] as int % 16, upper);
  }

  lemma DigitsBytes(mem: seq<Byte>, upper: bool)
    ensures forall i :: 0 <= i < 2 * |mem| ==> IsHexChar(Digits(mem, upper)[i])
    ensures Bytes(Digits(mem, upper)) == mem
  {
    var d := Digits(mem, upper);
    forall i | 0 <= i < 2 * |mem| ensures IsHexChar(d[i]) { DigitsHex(mem, upper, i); }
    var r := Bytes(d);
    forall i | 0 <= i < |mem| ensures r[i] == mem[i] {
      DigitsAt(mem, upper, i);
      HexCharValue(mem[i] as int / 16, upper);
      HexCharValue(mem[i] as int % 16, upper);
    }
  }

  /** A run of digits ends at the first other character; an odd digit or too many bytes are refused. */
  lemma RunParsed(d: string, rest: string, room: nat)
    requires forall i :: 0 <= i < |d| ==> IsHexChar(d[i])
    requires rest != [] ==> !IsHexChar(rest[0])
    ensures Prefixed(d + rest) <==> d == "0" && rest != [] && rest[0] in "xX"
    ensures !Prefixed(d + rest) ==>
              Parsed(d + rest, room) == if |d| % 2 == 0 && |d| / 2 <= room then Some(Bytes(d)) else None
  {
    var s := d + rest;
    if |d| >= 2 { assert s[1] == d[1]; } else if d == [] { assert s == rest; } else { assert s[1..] == rest; }
    HexRunIs(s, |d|);
    assert s[..|d|] == d;
  }

  /** "0x" or "0X" before a string is skipped, and not a second time. */
  lemma PrefixSkipped(s: string, x: char, room: nat)
    requires x in "xX"
    ensures Parsed(['0', x] + s, room) == if Prefixed(s) then None else Parsed(s, room)
  {
    assert (['0', x] + s)[2..] == s;
    if Prefixed(s) { HexRunIs(s, 1); }
  }

  /** Digits followed by something else parse to their bytes. */
  lemma DigitsParsed(mem: seq<Byte>, upper: bool, rest: string, room: nat)
    requires |mem| <= room && (rest != [] ==> !IsHexChar(rest[0]))
    ensures Parsed(Digits(mem, upper) + rest, room) == Some(mem)
  {
    DigitsBytes(mem, upper);
    RunParsed(Digits(mem, upper), rest, room);
  }

  /** Parsing a dump gives the memory back, in either case, when the buffer was large enough. */
  lemma RoundTrip(mem: seq<Byte>, size: nat, upper: bool, room: nat)
    requires 2 * |mem| < size && |mem| <= room
    ensures Parsed(Dump(mem, size, upper), room) == Some(mem)
  {
    DigitsParsed(mem, upper, "", room);
    assert Digits(mem, upper) + "" == Digits(mem, upper);
  }

  /** A dump that was cut short parses to the bytes before the dots. */
  lemma CutShortParsed(mem: seq<Byte>, size: nat, upper: bool, room: nat)
    requires 0 < size && 3 <= (size - 1) / 2 < |mem| <= room
    ensures Parsed(Dump(mem, size, upper), room) == Some(mem[..Left(|mem|, (size - 1) / 2)])
  {
    var c := (size - 1) / 2;
    var l, suffix := Left(|mem|, c), Digits(mem[Right(|mem|, c)..], upper);
    DigitsParsed(mem[..l], upper, ".." + suffix, room);
    Grouped(Digits(mem[..l], upper), "..", suffix);
  }

  lemma Grouped<T>(a: seq<T>, b: seq<T>, c: seq<T>)
    ensures a + b + c == a + (b + c)
  {
  }

  /** The loop that writes two digits for each byte. */
  method WriteDigits(buffer: array<char>, at: nat, mem: seq<Byte>, upper: bool)
    requires at + 2 * |mem| <= buffer.Length
    modifies buffer
    ensures buffer[..at] == old(buffer[..at])
    ensures buffer[at..at + 2 * |mem|] == Digits(mem, upper)
  {
    for i := 0 to |mem|
      invariant buffer[..at] == old(buffer[..at])
      invariant buffer[at..at + 2 * i] == Digits(mem[..i], upper)
    {
      buffer[at + 2 * i] := HexChar(mem[i] as int / 16, upper);
      buffer[at + 2 * i + 1] := HexChar(mem[i] as int % 16, upper);
      assert mem[..i + 1][..i] == mem[..i];
      assert buffer[at..at + 2 * (i + 1)] == buffer[at..at + 2 * i] + Pair(mem[i], upper);
    }
    assert mem[..|mem|] == mem;
  }

  lemma EndsFit(m: nat, c: nat)
    requires 0 < c <= m
    ensures Left(m, c) < Right(m, c) <= m && Left(m, c) + (m - Right(m, c)) == c - 1
  {
  }

  /** A dump with both ends of the memory, in room for `c` bytes. */
  method WriteEnds(buffer: array<char>, mem: seq<Byte>, upper: bool, c: nat)
    requires 3 <= c < |mem| && 2 * c < buffer.Length
    modifies buffer
    ensures buffer[..2 * c] == Ends(mem, c, upper)
  {
    var left, right := Left(|mem|, c), Right(|mem|, c);
    EndsFit(|mem|, c);
    ghost var first, last := Digits(mem[..left], upper), Digits(mem[right..], upper);
    WriteDigits(buffer, 0, mem[..left], upper);
    var n := 2 * left;
    buffer[n], buffer[n + 1] := '.', '.';
    n := n + 2;
    ghost var head := buffer[..n];
    assert head == first + "..";
    WriteDigits(buffer, n, mem[right..], upper);
    assert buffer[..2 * c] == buffer[..n] + buffer[n..2 * c];
    assert buffer[n..2 * c] == last;
  }

  method WriteDots(buffer: array<char>, n: nat)
    requires n <= buffer.Length
    modifies buffer
    ensures buffer[..n] == Dots(n)
  {
    for i := 0 to n
      invariant buffer[..i] == Dots(i)
    {
      buffer[i] := '.';
    }
  }

  /** Everything but the terminator; `n` is where that goes. */
  method WriteText(buffer: array<char>, mem: seq<Byte>, b: nat, c: nat, upper: bool) returns (n: nat)
    requires 2 * c <= b < buffer.Length
    modifies buffer
    ensures n <= b && buffer[..n] == Text(mem, b, c, upper)
  {
    if |mem| == 0 {
      n := 0;
    } else if c >= |mem| {
      WriteDigits(buffer, 0, mem, upper);
      n := 2 * |mem|;
    } else if c < 3 {
      WriteDots(buffer, b);
      n := b;
    } else {
      WriteEnds(buffer, mem, upper, c);
      n := 2 * c;
    }
  }

  /** hexmem: the dump and its terminator stay inside the buffer. */
  method HexMem(buffer: array<char>, mem: seq<Byte>, upper: bool)
    requires 0 < buffer.Length
    modifies buffer
    ensures var text := Dump(mem, buffer.Length, upper);
            |text| < buffer.Length && buffer[..|text|] == text && buffer[|text|] == '\0' && OneCase(text, upper)
  {
    DumpOneCase(mem, buffer.Length, upper);
    var b := buffer.Length - 1;
    var n := WriteText(buffer, mem, b, b / 2, upper);
    ghost var text := buffer[..n];
    buffer[n] := '\0';
    assert buffer[..n] == text;
  }

  /** The bytes of the first `i` pairs of a run of digits. */
  function Pairs(t: string, i: nat): seq<Byte>
    requires 2 * i <= HexRun(t)
  {
    seq(i, k requires 0 <= k < i => ByteAt(t[2 * k], t[2 * k + 1]))
  }

  lemma PairsAll(t: string)
    requires HexRun(t) % 2 == 0
    ensures Pairs(t, HexRun(t) / 2) == Bytes(t[..HexRun(t)])
  {
  }

  lemma PairsGrow(t: string, i: nat)
    requires 2 * i + 2 <= HexRun(t)
    ensures Pairs(t, i + 1) == Pairs(t, i) + [ByteAt(t[2 * i], t[2 * i + 1])]
  {
  }

  /** The digits go on exactly while the run does. */
  lemma RunAt(s: string, start: nat, k: nat)
    requires start <= |s| && k <= HexRun(s[start..])
    ensures IsHexChar(CharAt(s, start + k)) <==> k < HexRun(s[start..])
    ensures k < HexRun(s[start..]) ==> CharAt(s, start + k) == s[start..][k]
  {
  }

  /** What the loop meets at the `i`-th pair of a run of digits. */
  lemma PairAt(s: string, start: nat, i: nat)
    requires start <= |s| && 2 * i < HexRun(s[start..])
    ensures var t := s[start..];
            && CharAt(s, start + 2 * i) == t[2 * i]
            && (IsHexChar(CharAt(s, start + 2 * i + 1)) <==> 2 * i + 1 < HexRun(t))
            && (2 * i + 1 < HexRun(t) ==>
                  && CharAt(s, start + 2 * i + 1) == t[2 * i + 1]
                  && (IsHexChar(CharAt(s, start + 2 * i + 2)) <==> 2 * i + 2 < HexRun(t))
                  && Pairs(t, i + 1) == Pairs(t, i) + [ByteAt(t[2 * i], t[2 * i + 1])])
  {
    var t := s[start..];
    RunAt(s, start, 2 * i);
    RunAt(s, start, 2 * i + 1);
    if 2 * i + 1 < HexRun(t) {
      PairsGrow(t, i);
      RunAt(s, start, 2 * i + 2);
    }
  }

  /** One byte from two digits, the first of which has been seen. */
  method ParsePair(addr: array<Byte>, i: nat, str: string, cur: nat) returns (ok: bool)
    requires i < addr.Length && IsHexChar(CharAt(str, cur))
    modifies addr
    ensures ok == IsHexChar(CharAt(str, cur + 1))
    ensures addr[..i] == old(addr[..i]) && addr[i + 1..] == old(addr[i + 1..])
    ensures ok ==> addr[i] == ByteAt(CharAt(str, cur), CharAt(str, cur + 1))
  {
    var high := HexValue(CharAt(str, cur));
    addr[i] := (16 * high) as Byte;
    if !IsHexChar(CharAt(str, cur + 1)) { return false; }
    addr[i] := (16 * high + HexValue(CharAt(str, cur + 1))) as Byte;
    ok := true;
  }

  /** The loop over pairs of digits from `start` on. */
  method ParsePairs(addr: array<Byte>, str: string, start: nat) returns (len: Option<nat>)
    requires start <= |str|
    modifies addr
    ensures var n := HexRun(str[start..]);
            && (len.Some? <==> n % 2 == 0 && n / 2 <= addr.Length)
            && (len.Some? ==>
                  && len.value == n / 2 && addr[..n / 2] == Bytes(str[start..][..n])
                  && addr[n / 2..] == old(addr[n / 2..]))
  {
    var cur, i := start, 0;
    ghost var t := str[start..];
    ghost var n := HexRun(t);
    RunAt(str, start, 0);
    while IsHexChar(CharAt(str, cur))
      invariant cur == start + 2 * i && 2 * i <= n && i <= addr.Length
      invariant IsHexChar(CharAt(str, cur)) <==> 2 * i < n
      invariant addr[..i] == Pairs(t, i)
      invariant addr[i..] == old(addr[i..])
      decreases n - 2 * i
    {
      if i == addr.Length { return None; }
      PairAt(str, start, i);
      ghost var rest := addr[i..];
      var ok := ParsePair(addr, i, str, cur);
      if !ok { return None; }
      assert addr[..i + 1] == addr[..i] + [addr[i]];
      assert addr[i + 1..] == rest[1..];
      cur, i := cur + 2, i + 1;
    }
    PairsAll(t);
    len := Some(i);
  }

  /** hex2mem into a buffer: the number of bytes, or nothing. */
  method Hex2Mem(addr: array<Byte>, str: string) returns (len: Option<nat>)
    modifies addr
    ensures len.Some? <==> Parsed(str, addr.Length).Some?
    ensures len.Some? ==>
              && len.value == |Parsed(str, addr.Length).value| <= addr.Length
              && addr[..len.value] == Parsed(str, addr.Length).value && addr[len.value..] == old(addr[len.value..])
  {
    var start := if CharAt(str, 0) == '0' && (CharAt(str, 1) == 'x' || CharAt(str, 1) == 'X') then 2 else 0;
    ghost var t := str[start..];
    assert t == Unprefixed(str);
    len := ParsePairs(addr, str, start);
  }
}
