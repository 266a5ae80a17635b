/** The text form of CPU sets: a bit mask in 32-bit groups of hexadecimal digits, the highest first. */
module CpuMask {
  import opened Pieces
  import opened Rules
  import opened Text
  import opened CpuList

  // ---- Bits of unbounded integers ------------------------------------------------------------

  ghost predicate Bit(m: nat, i: nat) {
    if i == 0 then m % 2 == 1 else Bit(m / 2, i - 1)
  }

  function Pow2(i: nat): (r: nat)
    ensures r > 0
  {
    if i == 0 then 1 else 2 * Pow2(i - 1)
  }

  function Or(m: nat, n: nat): nat
    decreases m + n
  {
    if m == 0 then n else if n == 0 then m
    else 2 * Or(m / 2, n / 2) + (if m % 2 == 1 || n % 2 == 1 then 1 else 0)
  }

  lemma {:induction false} BitOfZero(i: nat)
    ensures !Bit(0, i)
  {
    if i > 0 {
      BitOfZero(i - 1);
    }
  }

  lemma OrByHalves(m: nat, n: nat)
    requires m > 0 && n > 0
    ensures Or(m, n) / 2 == Or(m / 2, n / 2) && (Or(m, n) % 2 == 1 <==> m % 2 == 1 || n % 2 == 1)
  {
  }

  lemma {:induction false} BitOfOr(m: nat, n: nat, i: nat)
    ensures Bit(Or(m, n), i) <==> Bit(m, i) || Bit(n, i)
    decreases i
  {
    if m == 0 || n == 0 {
      BitOfZero(i);
    } else {
      OrByHalves(m, n);
      if i > 0 {
        BitOfOr(m / 2, n / 2, i - 1);
      }
    }
  }

  lemma {:induction false} BitOfPow2(i: nat, j: nat)
    ensures Bit(Pow2(i), j) <==> i == j
  {
    if i == 0 {
      if j > 0 {
        BitOfZero(j - 1);
      }
    } else if j > 0 {
      assert Pow2(i) / 2 == Pow2(i - 1);
      BitOfPow2(i - 1, j - 1);
    }
  }

  /** Integers with the same bits are equal. */
  lemma {:induction false} BitsDetermine(m: nat, n: nat)
    requires forall i: nat :: Bit(m, i) <==> Bit(n, i)
    ensures m == n
    decreases m + n
  {
    if m != 0 || n != 0 {
      assert Bit(m, 0) <==> Bit(n, 0);
      forall i: nat ensures Bit(m / 2, i) <==> Bit(n / 2, i) {
        assert Bit(m, i + 1) <==> Bit(n, i + 1);
      }
      BitsDetermine(m / 2, n / 2);
    }
  }

  // ---- Hexadecimal numbers -------------------------------------------------------------------

  predicate IsHexDigit(c: char) {
    '0' <= c <= '9' || 'a' <= c <= 'f' || 'A' <= c <= 'F'
  }

  function DigitValue(c: char): (r: nat)
    requires IsHexDigit(c)
    ensures r < 16
  {
    if c <= '9' then (c - '0') as nat else if c <= 'F' then 10 + (c - 'A') as nat else 10 + (c - 'a') as nat
  }

  function DigitChar(d: nat): (r: char)
    requires d < 16
    ensures IsHexDigit(r) && DigitValue(r) == d && r != ',' && !IsSpace(r)
    ensures r == '0' <==> d == 0
  {
    if d < 10 then '0' + d as char else 'a' + (d - 10) as char
  }

  predicate IsHex(s: string) {
    forall i :: 0 <= i < |s| ==> IsHexDigit(s[i])
  }

  function HexValue(s: string): nat
    requires IsHex(s)
  {
    if s == [] then 0 else 16 * HexValue(s[..|s| - 1]) + DigitValue(s[|s| - 1])
  }

  /** `width` hexadecimal digits of `n`. */
  function Hex(n: nat, width: nat): (r: string)
    ensures |r| == width && IsHex(r) && forall i :: 0 <= i < |r| ==> r[i] != ',' && !IsSpace(r[i])
  {
    if width == 0 then "" else Hex(n / 16, width - 1) + [DigitChar(n % 16)]
  }

  function Pow16(w: nat): (r: nat)
    ensures r > 0
  {
    if w == 0 then 1 else 16 * Pow16(w - 1)
  }

  lemma OneMoreDigit(s: string, d: nat)
    requires IsHex(s) && d < 16
    ensures IsHex(s + [DigitChar(d)]) && HexValue(s + [DigitChar(d)]) == 16 * HexValue(s) + d
  {
    assert (s + [DigitChar(d)])[..|s|] == s;
  }

  lemma Scale(v: nat, p: nat, n: nat)
    ensures 16 * (v * p + n / 16) + n % 16 == v * (16 * p) + n
  {
    assert 16 * (v * p) == v * (16 * p);
  }

  lemma {:induction false} HexAppend(s: string, n: nat, w: nat)
    requires IsHex(s) && n < Pow16(w)
    ensures HexValue(s + Hex(n, w)) == HexValue(s) * Pow16(w) + n
  {
    if w == 0 {
      assert s + Hex(n, w) == s;
    } else {
      HexAppend(s, n / 16, w - 1);
      assert s + Hex(n, w) == (s + Hex(n / 16, w - 1)) + [DigitChar(n % 16)];
      OneMoreDigit(s + Hex(n / 16, w - 1), n % 16);
      Scale(HexValue(s), Pow16(w - 1), n);
    }
  }

  lemma {:induction false} LeadingZero(s: string)
    requires IsHex(s)
    ensures HexValue("0" + s) == HexValue(s)
  {
    var t := "0" + s;
    if s == [] {
      assert t[..0] == "";
    } else {
      LeadingZero(s[..|s| - 1]);
      assert t[..|t| - 1] == "0" + s[..|s| - 1];
    }
  }

  function DropZeros(s: string): (r: string)
    ensures |r| <= |s| && r == s[|s| - |r|..]
  {
    if s != [] && s[0] == '0' then DropZeros(s[1..]) else s
  }

  lemma DropOneZero(s: string, rest: string)
    requires s != [] && s[0] == '0' && IsHex(s[1..] + rest)
    ensures IsHex(s + rest) && HexValue(s + rest) == HexValue(s[1..] + rest)
  {
    LeadingZero(s[1..] + rest);
    assert s + rest == "0" + (s[1..] + rest);
  }

  lemma {:induction false} DropZerosKeepsValue(s: string, rest: string)
    requires IsHex(s) && IsHex(rest)
    ensures IsHex(DropZeros(s) + rest) && HexValue(DropZeros(s) + rest) == HexValue(s + rest)
  {
    if s != [] && s[0] == '0' {
      DropZerosKeepsValue(s[1..], rest);
      DropOneZero(s, rest);
    }
  }

  // ---- Formatting ----------------------------------------------------------------------------

  /** The mask of a list of CPUs: one bit for each. */
  function Mask(cpus: seq<nat>): nat {
    if cpus == [] then 0 else Or(Mask(cpus[..|cpus| - 1]), Pow2(cpus[|cpus| - 1]))
  }

  lemma {:induction false} BitOfMask(cpus: seq<nat>, i: nat)
    ensures Bit(Mask(cpus), i) <==> i in cpus
  {
    if cpus == [] {
      BitOfZero(i);
    } else {
      var rest, last := cpus[..|cpus| - 1], cpus[|cpus| - 1];
      BitOfMask(rest, i);
      BitOfPow2(last, i);
      BitOfOr(Mask(rest), Pow2(last), i);
      assert cpus == rest + [last];
    }
  }

  function Reverse(s: seq<string>): (r: seq<string>)
    ensures |r| == |s| && forall i :: 0 <= i < |r| ==> r[i] == s[|s| - 1 - i]
  {
    if s == [] then [] else Reverse(s[1..]) + [s[0]]
  }

  /** All groups of a mask, lowest first. */
  function Chunks(mask: nat): seq<string> {
    if mask == 0 then [] else [Hex(mask % 0x1_0000_0000, 8)] + Chunks(mask / 0x1_0000_0000)
  }

  /** The highest group loses its leading zeros. */
  function Trimmed(chunks: seq<string>): (r: seq<string>)
    requires chunks != []
    ensures |r| == |chunks|
  {
    var n := |chunks| - 1;
    var top := DropZeros(chunks[n]);
    chunks[n := if top == "" then "0" else top]
  }

  function FormatMask(mask: nat): string {
    if mask == 0 then "0" else Join(Reverse(Trimmed(Chunks(mask))), ',')
  }

  method MaskOf(cpus: seq<nat>) returns (mask: nat)
    ensures mask == Mask(cpus)
  {
    mask := 0;
    for i := 0 to |cpus|
      invariant mask == Mask(cpus[..i])
    {
      assert cpus[..i + 1][..i] == cpus[..i];
      mask := Or(mask, Pow2(cpus[i]));
    }
    assert cpus[..|cpus|] == cpus;
  }

  method ChunksOf(mask: nat) returns (chunks: seq<string>)
    ensures chunks == Chunks(mask)
  {
    chunks := [];
    var left := mask;
    while left != 0
      invariant chunks + Chunks(left) == Chunks(mask)
    {
      assert chunks + [Hex(left % 0x1_0000_0000, 8)] + Chunks(left / 0x1_0000_0000) == chunks + Chunks(left);
      chunks := chunks + [Hex(left % 0x1_0000_0000, 8)];
      left := left / 0x1_0000_0000;
    }
  }

  method FormatCpuMask(cpus: seq<nat>) returns (text: string)
    ensures text == FormatMask(Mask(cpus))
  {
    var mask := MaskOf(cpus);
    if mask == 0 {
      return "0";
    }
    var chunks := ChunksOf(mask);
    var top := DropZeros(chunks[|chunks| - 1]);
    chunks := chunks[|chunks| - 1 := if top == "" then "0" else top];
    return Join(Reverse(chunks), ',');
  }

  // ---- Parsing -------------------------------------------------------------------------------

  ghost predicate IsBits(cpus: set<nat>, mask: nat) {
    forall i: nat :: i in cpus <==> Bit(mask, i)
  }

  /** Hexadecimal digits, with single underscores allowed between them. */
  predicate Grouped(s: string) {
    && s != [] && s[0] != '_' && s[|s| - 1] != '_'
    && (forall i :: 0 <= i < |s| ==> IsHexDigit(s[i]) || s[i] == '_')
    && (forall i :: 0 <= i < |s| - 1 ==> s[i] != '_' || s[i + 1] != '_')
  }

  function GroupedValue(s: string): nat
    requires forall i :: 0 <= i < |s| ==> IsHexDigit(s[i]) || s[i] == '_'
  {
    if s == [] then 0
    else if s[|s| - 1] == '_' then GroupedValue(s[..|s| - 1])
    else 16 * GroupedValue(s[..|s| - 1]) + DigitValue(s[|s| - 1])
  }

  lemma {:induction false} GroupedHex(s: string)
    requires IsHex(s)
    ensures GroupedValue(s) == HexValue(s)
  {
    if s != [] {
      GroupedHex(s[..|s| - 1]);
    }
  }

  /** A prefix is "0x", and may be followed by an underscore. */
  function AfterPrefix(s: string): string {
    if |s| >= 2 && s[0] == '0' && (s[1] == 'x' || s[1] == 'X') then
      if |s| > 2 && s[2] == '_' then s[3..] else s[2..]
    else s
  }

  /** What Python reads as an integer in base 16: white space around, a sign, a prefix, digits. */
  function Base16(text: string): Option<int> {
    var s := Strip(text);
    var signed := s != [] && (s[0] == '-' || s[0] == '+');
    var digits := AfterPrefix(if signed then s[1..] else s);
    if !Grouped(digits) then None
    else Some(if signed && s[0] == '-' then 0 - GroupedValue(digits) else GroupedValue(digits))
  }

  /** The number a text stands for; a text that is not a number stands for none. */
  function Number(text: string): int {
    var cleaned := Without(Strip(text), ',');
    if cleaned == [] then 0
    else match Base16(cleaned) case Some(value) => value case None => 0
  }

  /** The number after `n` shifts to the right, each of which rounds down. */
  function Shifted(value: int, n: nat): int
    decreases n
  {
    if n == 0 then value else Shifted(value / 2, n - 1)
  }

  /** Shifting never brings a negative number to zero, so the loop over its bits never ends. */
  lemma {:induction false} NegativeNeverEnds(value: int, n: nat)
    requires value < 0
    ensures Shifted(value, n) != 0
    decreases n
  {
    if n > 0 {
      NegativeNeverEnds(value / 2, n - 1);
    }
  }

  lemma MinusOneIsRead()
    ensures Number("-1") == -1
  {
    var s := "-1";
    assert Without(s, ',') == s && Strip(s) == s;
    assert s[1..] == "1" && "1"[..0] == "";
    assert GroupedValue("1") == 1;
  }

  /** The positions of the bits of `value`, counted from `low`. */
  function BitsFrom(value: nat, low: nat): set<nat> {
    if value == 0 then {} else (if value % 2 == 1 then {low} else {}) + BitsFrom(value / 2, low + 1)
  }

  lemma {:induction false} BitsFromAreBits(value: nat, low: nat, i: nat)
    ensures i in BitsFrom(value, low) <==> i >= low && Bit(value, i - low)
    decreases value
  {
    if value != 0 {
      BitsFromAreBits(value / 2, low + 1, i);
    } else if i >= low {
      BitOfZero(i - low);
    }
  }

  /** The set bits of the number, or none when the number is negative and the loop would never end. */
  method ParseCpuMask(text: string) returns (r: Option<set<nat>>)
    ensures r.None? <==> Number(text) < 0
    ensures r.Some? ==> IsBits(r.value, Number(text))
  {
    var cleaned := Without(Strip(text), ',');
    forall i: nat ensures !Bit(0, i) { BitOfZero(i); }
    if cleaned == "" {
      return Some({});
    }
    var parsed := Base16(cleaned);
    if parsed.None? {
      return Some({});
    }
    if parsed.value < 0 {
      return None;
    }
    var cpus := BitsOf(parsed.value);
    return Some(cpus);
  }

  method BitsOf(number: nat) returns (cpus: set<nat>)
    ensures IsBits(cpus, number)
  {
    forall i: nat ensures i in BitsFrom(number, 0) <==> Bit(number, i) {
      BitsFromAreBits(number, 0, i);
    }
    var value := number;
    cpus := {};
    var cpu := 0;
    while value != 0
      invariant cpus + BitsFrom(value, cpu) == BitsFrom(number, 0)
      decreases value
    {
      if value % 2 == 1 {
        cpus := cpus + {cpu};
      }
      value := value / 2;
      cpu := cpu + 1;
    }
  }

  // ---- Round trip ----------------------------------------------------------------------------

  /** The groups of a mask side by side, highest first, with all their zeros. */
  function Digits(mask: nat): (r: string)
    ensures IsHex(r)
  {
    if mask == 0 then "" else Digits(mask / 0x1_0000_0000) + Hex(mask % 0x1_0000_0000, 8)
  }

  lemma OneMoreChunk(high: string, low: nat)
    requires IsHex(high) && low < 0x1_0000_0000
    ensures HexValue(high + Hex(low, 8)) == HexValue(high) * 0x1_0000_0000 + low
  {
    SixteenToTheEighth();
    HexAppend(high, low, 8);
  }

  lemma {:induction false} ValueOfDigits(mask: nat)
    ensures HexValue(Digits(mask)) == mask
  {
    if mask != 0 {
      ValueOfDigits(mask / 0x1_0000_0000);
      OneMoreChunk(Digits(mask / 0x1_0000_0000), mask % 0x1_0000_0000);
    }
  }

  lemma SixteenToTheEighth()
    ensures Pow16(8) == 0x1_0000_0000
  {
    assert Pow16(4) == 0x1_0000;
  }

  function Concat(parts: seq<string>): string {
    if parts == [] then "" else parts[0] + Concat(parts[1..])
  }

  ghost predicate AllHex(parts: seq<string>) {
    forall i :: 0 <= i < |parts| ==> IsHex(parts[i])
  }

  ghost predicate NoSpace(s: string) {
    forall i :: 0 <= i < |s| ==> !IsSpace(s[i])
  }

  lemma {:induction false} ConcatIsHex(parts: seq<string>)
    requires AllHex(parts)
    ensures IsHex(Concat(parts))
  {
    if parts != [] {
      ConcatIsHex(parts[1..]);
    }
  }

  lemma {:induction false} JoinHasNoSpace(parts: seq<string>)
    requires AllHex(parts)
    ensures NoSpace(Join(parts, ','))
  {
    if |parts| == 1 {
      assert IsHex(parts[0]);
    } else if |parts| > 1 {
      JoinHasNoSpace(parts[1..]);
    }
  }

  lemma {:induction false} JoinWithoutCommas(parts: seq<string>)
    requires AllHex(parts)
    ensures Without(Join(parts, ','), ',') == Concat(parts)
  {
    if parts != [] {
      var first, rest := parts[0], parts[1..];
      assert IsHex(first);
      WithoutNone(first, ',');
      if rest == [] {
        assert Concat(rest) == "";
      } else {
        JoinWithoutCommas(rest);
        WithoutSeparator(first, ',', Join(rest, ','));
      }
    }
  }

  lemma JoinOfHex(parts: seq<string>)
    requires AllHex(parts)
    ensures Without(Join(parts, ','), ',') == Concat(parts) && NoSpace(Join(parts, ',')) && IsHex(Concat(parts))
  {
    JoinWithoutCommas(parts);
    JoinHasNoSpace(parts);
    ConcatIsHex(parts);
  }

  lemma {:induction false} ConcatAppend(parts: seq<string>, part: string)
    ensures Concat(parts + [part]) == Concat(parts) + part
  {
    if parts == [] {
      assert (parts + [part])[1..] == [];
    } else {
      assert (parts + [part])[1..] == parts[1..] + [part];
      ConcatAppend(parts[1..], part);
    }
  }

  lemma {:induction false} DigitsOfChunks(mask: nat)
    ensures AllHex(Chunks(mask)) && Concat(Reverse(Chunks(mask))) == Digits(mask)
  {
    if mask != 0 {
      var low, rest := Hex(mask % 0x1_0000_0000, 8), Chunks(mask / 0x1_0000_0000);
      DigitsOfChunks(mask / 0x1_0000_0000);
      assert Chunks(mask)[1..] == rest;
      ConcatAppend(Reverse(rest), low);
    }
  }

  /** The highest group without its leading zeros. */
  function Top(chunk: string): string {
    var top := DropZeros(chunk);
    if top == "" then "0" else top
  }

  lemma TopKeepsValue(top: string, rest: string)
    requires IsHex(top) && IsHex(rest)
    ensures IsHex(Top(top)) && IsHex(Top(top) + rest) && IsHex(top + rest)
    ensures HexValue(Top(top) + rest) == HexValue(top + rest)
  {
    DropZerosKeepsValue(top, rest);
    if DropZeros(top) == "" {
      assert DropZeros(top) + rest == rest;
      LeadingZero(rest);
    }
  }

  lemma TrimShape(chunks: seq<string>)
    requires chunks != []
    ensures Reverse(Trimmed(chunks)) == [Top(Reverse(chunks)[0])] + Reverse(chunks)[1..]
  {
  }

  /** Trimming the highest group keeps the value of the digits. */
  lemma TrimKeepsValue(chunks: seq<string>)
    requires chunks != [] && AllHex(chunks)
    ensures AllHex(Reverse(chunks)) && AllHex(Reverse(Trimmed(chunks)))
    ensures IsHex(Concat(Reverse(chunks))) && IsHex(Concat(Reverse(Trimmed(chunks))))
    ensures HexValue(Concat(Reverse(Trimmed(chunks)))) == HexValue(Concat(Reverse(chunks)))
  {
    var all := Reverse(chunks);
    assert AllHex(all) && AllHex(all[1..]);
    ConcatIsHex(all[1..]);
    TopKeepsValue(all[0], Concat(all[1..]));
    TrimShape(chunks);
    assert ([Top(all[0])] + all[1..])[1..] == all[1..];
  }

  lemma {:induction false} StripNothing(s: string)
    requires NoSpace(s)
    ensures Strip(s) == s
  {
  }

  /** Plain digits stand for their value. */
  lemma Base16OfHex(s: string)
    requires IsHex(s) && s != []
    ensures Base16(s) == Some(HexValue(s))
  {
    StripNothing(s);
    assert s[0] != '-' && s[0] != '+' && AfterPrefix(s) == s && Grouped(s);
    GroupedHex(s);
  }

  lemma NotEmpty(chunks: seq<string>)
    requires chunks != [] && AllHex(Reverse(Trimmed(chunks)))
    ensures Concat(Reverse(Trimmed(chunks))) != []
  {
    var parts := Reverse(Trimmed(chunks));
    assert parts[0] != [];
  }

  /** A prefix changes nothing. */
  lemma PrefixIsIgnored(s: string)
    requires IsHex(s) && s != []
    ensures Base16("0x" + s) == Base16(s)
  {
    var t := "0x" + s;
    Base16OfHex(s);
    GroupedHex(s);
    assert t[1] == 'x' && t[2..] == s && t[2] == s[0] && s[0] != '_';
    assert NoOuterSpace(t);
    assert Strip(t) == t && AfterPrefix(t) == s;
  }

  ghost predicate NoOuterSpace(s: string) {
    s != [] && !IsSpace(s[0]) && !IsSpace(s[|s| - 1])
  }

  lemma SignedStrip(sign: char, s: string)
    requires (sign == '-' || sign == '+') && IsHex(s) && s != []
    ensures Strip([sign] + s) == [sign] + s && ([sign] + s)[1..] == s && AfterPrefix(s) == s && Grouped(s)
  {
    var t := [sign] + s;
    assert !IsSpace(t[0]) && !IsSpace(t[|t| - 1]);
  }

  /** A sign is read, and a minus negates. */
  lemma SignIsRead(sign: char, s: string)
    requires (sign == '-' || sign == '+') && IsHex(s) && s != []
    ensures Base16([sign] + s) == Some(if sign == '-' then 0 - HexValue(s) else HexValue(s))
  {
    SignedStrip(sign, s);
    GroupedHex(s);
  }

  lemma OneMoreHexDigit(s: string, c: char)
    requires IsHex(s) && IsHexDigit(c)
    ensures IsHex(s + [c]) && HexValue(s + [c]) == 16 * HexValue(s) + DigitValue(c)
  {
    assert (s + [c])[..|s|] == s;
  }

  /** Underscores between digits do not count. */
  lemma {:induction false} UnderscoresAreIgnored(s: string)
    requires forall i :: 0 <= i < |s| ==> IsHexDigit(s[i]) || s[i] == '_'
    ensures IsHex(Without(s, '_')) && GroupedValue(s) == HexValue(Without(s, '_'))
  {
    if s != [] {
      var front, last := s[..|s| - 1], s[|s| - 1];
      UnderscoresAreIgnored(front);
      assert s == front + [last];
      if last == '_' {
        WithoutAppended(front, '_');
      } else {
        WithoutKept(front, last, '_');
        OneMoreHexDigit(Without(front, '_'), last);
      }
    }
  }

  /** A formatted mask reads back as the same number. */
  lemma NumberOfFormat(mask: nat)
    ensures Number(FormatMask(mask)) == mask
  {
    if mask == 0 {
      assert Without("0", ',') == "0";
      Base16OfHex("0");
      assert "0"[..0] == "";
    } else {
      var parts := Reverse(Trimmed(Chunks(mask)));
      DigitsOfChunks(mask);
      TrimKeepsValue(Chunks(mask));
      JoinOfHex(parts);
      StripNothing(Join(parts, ','));
      ValueOfDigits(mask);
      NotEmpty(Chunks(mask));
      Base16OfHex(Concat(parts));
    }
  }

  /** What is read back from a formatted list is exactly the set of its CPUs, however large their numbers. */
  lemma RoundTrip(cpus: seq<nat>, back: set<nat>)
    ensures Number(FormatMask(Mask(cpus))) >= 0
    ensures IsBits(back, Number(FormatMask(Mask(cpus)))) <==> back == Ids(cpus)
  {
    NumberOfFormat(Mask(cpus));
    forall i: nat ensures Bit(Mask(cpus), i) <==> i in Ids(cpus) {
      BitOfMask(cpus, i);
    }
    if IsBits(back, Mask(cpus)) {
      assert forall i :: i in back <==> i in Ids(cpus);
    }
  }

  /** Two lists are written alike exactly when they have the same CPUs: order and repetition do not show. */
  lemma SameTextIffSameCpus(a: seq<nat>, b: seq<nat>)
    ensures FormatMask(Mask(a)) == FormatMask(Mask(b)) <==> Ids(a) == Ids(b)
  {
    RoundTrip(a, Ids(a));
    RoundTrip(b, Ids(a));
    if Ids(a) == Ids(b) {
      forall i: nat ensures Bit(Mask(a), i) <==> Bit(Mask(b), i) {
        BitOfMask(a, i);
        BitOfMask(b, i);
        assert i in Ids(a) <==> i in Ids(b);
      }
      BitsDetermine(Mask(a), Mask(b));
    }
  }
}
