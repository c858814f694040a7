/** The Base32 encoder (src/3rdparty/base32/base32.h): one loop over a 32-bit accumulator that keeps
    losing its high bits, proved to write the unpadded encoding of section 6 of RFC 4648. */
module Base32 {
  import opened Basics

  type bit = x: int | 0 <= x < 2

  const ALPHABET: string := "ABCDEFGHIJKLMNOPQRSTUVWXYZ234567"

  // ---- bit strings, most significant bit first ----

  /** The `n` low bits of a number. */
  function Bits(x: int, n: nat): (bs: seq<bit>)
    ensures |bs| == n
  {
    seq(n, i requires 0 <= i < n => ShiftRight(x, n - 1 - i) % 2)
  }

  lemma BitsStep(x: int, n: nat)
    requires n > 0
    ensures Bits(x, n) == Bits(x / 2, n - 1) + [x % 2]
  {
    assert ShiftRight(x, 0) == x;
    forall i | 0 <= i < n - 1 ensures Bits(x, n)[i] == Bits(x / 2, n - 1)[i] {
      assert ShiftRight(x, n - 1 - i) == ShiftRight(x / 2, n - 2 - i);
    }
  }

  function Value(bs: seq<bit>): (v: int)
    ensures v >= 0
  {
    if bs == [] then 0 else 2 * Value(bs[..|bs| - 1]) + bs[|bs| - 1]
  }

  function Zeros(n: nat): (bs: seq<bit>)
    ensures |bs| == n
  {
    seq(n, _ => 0)
  }

  /** Arithmetic shifts, one bit at a time. */
  function ShiftLeft(x: int, n: nat): int
    decreases n
  {
    if n == 0 then x else 2 * ShiftLeft(x, n - 1)
  }

  function ShiftRight(x: int, n: nat): int
    decreases n
  {
    if n == 0 then x else ShiftRight(x / 2, n - 1)
  }

  lemma {:induction false} BitsOfValue(bs: seq<bit>)
    ensures Bits(Value(bs), |bs|) == bs
  {
    if bs != [] {
      BitsOfValue(bs[..|bs| - 1]);
      BitsStep(Value(bs), |bs|);
    }
  }

  lemma {:induction false} SplitBits(x: int, m: nat, n: nat)
    ensures Bits(x, m + n) == Bits(ShiftRight(x, n), m) + Bits(x, n)
    decreases n
  {
    if n != 0 {
      SplitBits(x / 2, m, n - 1);
      BitsStep(x, m + n);
      BitsStep(x, n);
    }
  }

  lemma {:induction false} AppendZeros(x: int, n: nat, pad: nat)
    ensures Bits(ShiftLeft(x, pad), n + pad) == Bits(x, n) + Zeros(pad)
    decreases pad
  {
    if pad != 0 {
      AppendZeros(x, n, pad - 1);
      BitsStep(ShiftLeft(x, pad), n + pad);
      assert Zeros(pad) == Zeros(pad - 1) + [0];
    }
  }

  /** Adding a number below `2^k` to one shifted left by `k` writes its bits into the gap. */
  lemma {:induction false} AppendBits(x: int, n: nat, y: int, k: nat)
    requires 0 <= y < ShiftLeft(1, k)
    ensures Bits(ShiftLeft(x, k) + y, n + k) == Bits(x, n) + Bits(y, k)
    decreases k
  {
    if k != 0 {
      AppendBits(x, n, y / 2, k - 1);
      BitsStep(ShiftLeft(x, k) + y, n + k);
      BitsStep(y, k);
      assert (ShiftLeft(x, k) + y) / 2 == ShiftLeft(x, k - 1) + y / 2;
      assert (ShiftLeft(x, k) + y) % 2 == y % 2;
    }
  }

  /** What is added above the low `n` bits does not change them. */
  lemma {:induction false} LowBits(x: int, y: int, n: nat, k: nat)
    requires n <= k
    ensures Bits(x + ShiftLeft(y, k), n) == Bits(x, n)
    decreases n
  {
    if n != 0 {
      assert (x + ShiftLeft(y, k)) / 2 == x / 2 + ShiftLeft(y, k - 1);
      assert (x + ShiftLeft(y, k)) % 2 == x % 2;
      LowBits(x / 2, y, n - 1, k - 1);
      BitsStep(x + ShiftLeft(y, k), n);
      BitsStep(x, n);
    }
  }

  lemma {:induction false} ShiftIsTimes(x: int, k: nat, p: int)
    requires p == ShiftLeft(1, k)
    ensures ShiftLeft(x, k) == x * p
    decreases k
  {
    if k != 0 {
      ShiftIsTimes(x, k - 1, ShiftLeft(1, k - 1));
      assert 2 * (x * ShiftLeft(1, k - 1)) == x * (2 * ShiftLeft(1, k - 1));
    }
  }

  // ---- the encoding as RFC 4648 defines it ----

  function InputBits(data: seq<byte>): (bs: seq<bit>)
    ensures |bs| == 8 * |data|
  {
    if data == [] then [] else InputBits(data[..|data| - 1]) + Bits(data[|data| - 1], 8)
  }

  /** The number of symbols for `n` bytes: the bits rounded up to a multiple of five. */
  function SymbolCount(n: nat): nat {
    (8 * n + 4) / 5
  }

  /** The bits of the input, with zeros added up to a multiple of five. */
  function PaddedBits(data: seq<byte>): (bs: seq<bit>)
    ensures |bs| == 5 * SymbolCount(|data|)
  {
    InputBits(data) + Zeros(5 * SymbolCount(|data|) - 8 * |data|)
  }

  function Symbol(group: seq<bit>): char
    requires |group| == 5
  {
    ValueRange(group);
    assert ShiftLeft(1, 5) == 32 by { assert ShiftLeft(1, 2) == 4; assert ShiftLeft(1, 4) == 16; }
    ALPHABET[Value(group)]
  }

  lemma {:induction false} ValueRange(bs: seq<bit>)
    ensures 0 <= Value(bs) < ShiftLeft(1, |bs|)
  {
    if bs != [] {
      ValueRange(bs[..|bs| - 1]);
    }
  }

  function Group(bs: seq<bit>, k: nat): (g: seq<bit>)
    requires 5 * k + 5 <= |bs|
    ensures |g| == 5
  {
    bs[5 * k..5 * k + 5]
  }

  /** The text spells the bit string, five bits per symbol. */
  ghost predicate Spells(s: seq<char>, bs: seq<bit>) {
    && |bs| == 5 * |s|
    && (forall k {:trigger Group(bs, k)} :: 0 <= k < |s| ==> s[k] == Symbol(Group(bs, k)))
  }

  /** Each group of five bits becomes one symbol. */
  function Encode(data: seq<byte>): (s: seq<char>)
    ensures |s| == SymbolCount(|data|) && Spells(s, PaddedBits(data))
  {
    seq(SymbolCount(|data|), k requires 0 <= k < SymbolCount(|data|) => Symbol(Group(PaddedBits(data), k)))
  }

  // ---- decoding undoes it ----

  function Index(c: char): int {
    if 'A' <= c <= 'Z' then c as int - 'A' as int
    else if '2' <= c <= '7' then c as int - '2' as int + 26
    else 0
  }

  function TextBits(s: seq<char>): (bs: seq<bit>)
    ensures |bs| == 5 * |s|
  {
    if s == [] then [] else TextBits(s[..|s| - 1]) + Bits(Index(s[|s| - 1]), 5)
  }

  function Octet(bs: seq<bit>, i: nat): seq<bit>
    requires 8 * i + 8 <= |bs|
  {
    bs[8 * i..8 * i + 8]
  }

  /** Every full group of eight bits of the text becomes one byte. */
  function Decode(s: seq<char>): seq<int> {
    seq(5 * |s| / 8, i requires 0 <= i < 5 * |s| / 8 => Value(Octet(TextBits(s), i)))
  }

  lemma SymbolBits(group: seq<bit>)
    requires |group| == 5
    ensures Bits(Index(Symbol(group)), 5) == group
  {
    ValueRange(group);
    assert ShiftLeft(1, 5) == 32 by { assert ShiftLeft(1, 2) == 4; assert ShiftLeft(1, 4) == 16; }
    IndexUndoesAlphabet(Value(group));
    BitsOfValue(group);
  }

  lemma IndexUndoesAlphabet(x: int)
    requires 0 <= x < 32
    ensures Index(ALPHABET[x]) == x
  {
  }

  lemma {:induction false} TextCarriesBits(s: seq<char>, bs: seq<bit>, k: nat)
    requires Spells(s, bs) && k <= |s|
    ensures TextBits(s[..k]) == bs[..5 * k]
  {
    if k != 0 {
      TextCarriesBits(s, bs, k - 1);
      assert s[..k][..k - 1] == s[..k - 1] && s[..k][k - 1] == s[k - 1];
      SymbolBits(Group(bs, k - 1));
      GroupExtends(bs, k - 1);
    }
  }

  lemma GroupExtends(bs: seq<bit>, k: nat)
    requires 5 * k + 5 <= |bs|
    ensures bs[..5 * (k + 1)] == bs[..5 * k] + Group(bs, k)
  {
  }

  lemma {:induction false} InputBitsAt(data: seq<byte>, i: nat)
    requires i < |data|
    ensures Octet(InputBits(data), i) == Bits(data[i], 8)
  {
    if i < |data| - 1 {
      InputBitsAt(data[..|data| - 1], i);
      assert Octet(InputBits(data), i) == Octet(InputBits(data[..|data| - 1]), i);
    }
  }

  lemma {:induction false} ValueOfBits(x: int, n: nat)
    requires 0 <= x < ShiftLeft(1, n)
    ensures Value(Bits(x, n)) == x
    decreases n
  {
    if n != 0 {
      ValueOfBits(x / 2, n - 1);
      BitsStep(x, n);
      assert Bits(x, n)[..n - 1] == Bits(x / 2, n - 1);
    }
  }

  lemma EightBits()
    ensures ShiftLeft(1, 8) == 256
  {
    assert ShiftLeft(1, 2) == 4;
    assert ShiftLeft(1, 4) == 16;
    assert ShiftLeft(1, 6) == 64;
  }

  lemma DecodedByte(data: seq<byte>, i: nat)
    requires i < |data|
    ensures Value(Octet(PaddedBits(data), i)) == data[i]
  {
    InputBitsAt(data, i);
    assert Octet(PaddedBits(data), i) == Octet(InputBits(data), i);
    EightBits();
    ValueOfBits(data[i], 8);
  }

  lemma CountBack(n: nat)
    ensures 8 * n <= 5 * SymbolCount(n) < 8 * n + 5 && 5 * SymbolCount(n) / 8 == n
  {
  }

  lemma DecodeText(s: seq<char>, bs: seq<bit>, data: seq<byte>)
    requires TextBits(s) == bs && 5 * |s| / 8 == |data|
    requires forall i :: 0 <= i < |data| ==> Value(Octet(bs, i)) == data[i]
    ensures Decode(s) == data
  {
  }

  /** Decoding undoes encoding, for every input. */
  lemma DecodeUndoesEncode(data: seq<byte>)
    ensures Decode(Encode(data)) == data
  {
    var s, bs := Encode(data), PaddedBits(data);
    assert TextBits(s) == bs by {
      TextCarriesBits(s, bs, |s|);
      assert s[..|s|] == s && bs[..5 * |s|] == bs;
    }
    CountBack(|data|);
    forall i | 0 <= i < |data| ensures Value(Octet(bs, i)) == data[i] {
      DecodedByte(data, i);
    }
    DecodeText(s, bs, data);
  }

  /** Hence no two inputs, of whatever lengths, share an encoding. */
  lemma EncodeIsInjective(a: seq<byte>, b: seq<byte>)
    requires Encode(a) == Encode(b)
    ensures a == b
  {
    DecodeUndoesEncode(a);
    DecodeUndoesEncode(b);
  }

  /** The first test vectors of section 10 of RFC 4648, without padding. */
  lemma TestVectors()
    ensures Encode([]) == ""
    ensures Encode([0x66]) == ['M', 'Y']
  {
    PaddedBitsOfF();
    SpelledByTwo(Encode([0x66]), PaddedBits([0x66]), 12, 24);
    LettersMY();
  }

  lemma SpelledByTwo(s: seq<char>, bs: seq<bit>, x: nat, y: nat)
    requires Spells(s, bs) && |s| == 2 && x < 32 && y < 32
    requires x == 16 * (bs[0] as int) + 8 * (bs[1] as int) + 4 * (bs[2] as int) + 2 * (bs[3] as int) + (bs[4] as int)
    requires y == 16 * (bs[5] as int) + 8 * (bs[6] as int) + 4 * (bs[7] as int) + 2 * (bs[8] as int) + (bs[9] as int)
    ensures s == [ALPHABET[x], ALPHABET[y]]
  {
    SymbolOfFive(Group(bs, 0));
    SymbolOfFive(Group(bs, 1));
    assert s[0] == Symbol(Group(bs, 0)) && s[1] == Symbol(Group(bs, 1));
  }

  lemma LettersMY()
    ensures ALPHABET[12] == 'M' && ALPHABET[24] == 'Y'
  {
  }

  lemma PaddedBitsOfF()
    ensures PaddedBits([0x66]) == [0, 1, 1, 0, 0, 1, 1, 0, 0, 0]
  {
    var data: seq<byte> := [0x66];
    assert data[..0] == [] && InputBits(data) == Bits(0x66, 8);
    BitsOfF();
  }

  lemma BitsOfF()
    ensures Bits(0x66, 8) == [0, 1, 1, 0, 0, 1, 1, 0]
  {
    assert ShiftRight(0x66, 0) == 102 && ShiftRight(0x66, 1) == 51 && ShiftRight(0x66, 2) == 25 && ShiftRight(0x66, 3) == 12;
    assert ShiftRight(0x66, 4) == 6 && ShiftRight(0x66, 5) == 3 && ShiftRight(0x66, 6) == 1 && ShiftRight(0x66, 7) == 0;
  }

  lemma SymbolOfFive(g: seq<bit>)
    requires |g| == 5
    ensures Value(g) == 16 * (g[0] as int) + 8 * (g[1] as int) + 4 * (g[2] as int) + 2 * (g[3] as int) + (g[4] as int)
  {
    assert g[..4][..3] == g[..3] && g[..3][..2] == g[..2] && g[..2][..1] == g[..1] && g[..1][..0] == [];
    assert Value(g[..1]) == g[0];
    assert Value(g[..2]) == 2 * Value(g[..1]) + g[1];
    assert Value(g[..3]) == 2 * Value(g[..2]) + g[2];
    assert Value(g[..4]) == 2 * Value(g[..3]) + g[3];
  }

  // ---- the loop ----

  /** A signed 32-bit integer keeps the low 32 bits. */
  function Wrap32(x: int): int {
    (x + 0x8000_0000) % 0x1_0000_0000 - 0x8000_0000
  }

  lemma WrapKeepsLowBits(x: int, n: nat)
    requires n <= 32
    ensures Bits(Wrap32(x), n) == Bits(x, n)
  {
    var y := -((x + 0x8000_0000) / 0x1_0000_0000);
    assert Wrap32(x) == x + 0x1_0000_0000 * y;
    assert ShiftLeft(1, 32) == 0x1_0000_0000 by {
      EightBits();
      ShiftIsTimes(1, 8, 256);
      assert ShiftLeft(1, 16) == 0x1_0000 by { ShiftTwice(1, 8, 8); ShiftIsTimes(256, 8, 256); }
      ShiftTwice(1, 16, 16);
      ShiftIsTimes(0x1_0000, 16, 0x1_0000);
    }
    ShiftIsTimes(y, 32, 0x1_0000_0000);
    LowBits(x, y, n, 32);
  }

  lemma {:induction false} ShiftTwice(x: int, m: nat, n: nat)
    ensures ShiftLeft(ShiftLeft(x, m), n) == ShiftLeft(x, m + n)
    decreases n
  {
    if n != 0 {
      ShiftTwice(x, m, n - 1);
    }
  }

  /** The accumulator holds the bits that were read and not yet written. */
  ghost predicate Holds(buffer: int, bitsLeft: nat, bs: seq<bit>, at: nat) {
    at + bitsLeft <= |bs| && Bits(buffer, bitsLeft) == bs[at..at + bitsLeft]
  }

  lemma LoadByte(buffer: int, bitsLeft: nat, bs: seq<bit>, at: nat, b: byte)
    requires Holds(buffer, bitsLeft, bs, at) && bitsLeft < 5
    requires at + bitsLeft + 8 <= |bs| && bs[at + bitsLeft..at + bitsLeft + 8] == Bits(b, 8)
    ensures Holds(Wrap32(256 * buffer + b), bitsLeft + 8, bs, at)
  {
    EightBits();
    ShiftIsTimes(buffer, 8, 256);
    AppendBits(buffer, bitsLeft, b, 8);
    WrapKeepsLowBits(256 * buffer + b, bitsLeft + 8);
    assert bs[at..at + bitsLeft + 8] == bs[at..at + bitsLeft] + bs[at + bitsLeft..at + bitsLeft + 8];
  }

  lemma LoadPad(buffer: int, bitsLeft: nat, bs: seq<bit>, at: nat)
    requires Holds(buffer, bitsLeft, bs, at) && bitsLeft < 5
    requires at + 5 <= |bs| && bs[at + bitsLeft..at + 5] == Zeros(5 - bitsLeft)
    ensures Holds(Wrap32(ShiftLeft(buffer, 5 - bitsLeft)), 5, bs, at)
  {
    var pad := 5 - bitsLeft;
    AppendZeros(buffer, bitsLeft, pad);
    WrapKeepsLowBits(ShiftLeft(buffer, pad), 5);
    assert bs[at..at + 5] == bs[at..at + bitsLeft] + bs[at + bitsLeft..at + 5];
  }

  lemma LowFive(x: int)
    ensures Value(Bits(x, 5)) == x % 32
  {
    var r := x % 32;
    assert x == r + 32 * (x / 32);
    assert ShiftLeft(1, 5) == 32 by { assert ShiftLeft(1, 2) == 4; assert ShiftLeft(1, 4) == 16; }
    ShiftIsTimes(x / 32, 5, 32);
    LowBits(r, x / 32, 5, 5);
    ValueOfBits(r, 5);
  }

  lemma TakeSymbol(buffer: int, bitsLeft: nat, bs: seq<bit>, count: nat)
    requires Holds(buffer, bitsLeft, bs, 5 * count) && bitsLeft >= 5
    ensures ALPHABET[ShiftRight(buffer, bitsLeft - 5) % 32] == Symbol(Group(bs, count))
    ensures Holds(buffer, bitsLeft - 5, bs, 5 * count + 5)
  {
    SplitBits(buffer, 5, bitsLeft - 5);
    var at := 5 * count;
    var all := bs[at..at + bitsLeft];
    assert all[..5] == bs[at..at + 5] && all[5..] == bs[at + 5..at + bitsLeft];
    LowFive(ShiftRight(buffer, bitsLeft - 5));
  }

  /** `bs` is the padded bit string of `input`, seen where the loop reads it. */
  ghost predicate IsPadded(bs: seq<bit>, input: seq<byte>, symbols: nat) {
    && |bs| == 5 * symbols && 8 * |input| <= 5 * symbols < 8 * |input| + 5
    && (forall i {:trigger Octet(bs, i)} :: 0 <= i < |input| ==> Octet(bs, i) == Bits(input[i], 8))
    && bs[8 * |input|..] == Zeros(5 * symbols - 8 * |input|)
  }

  lemma PaddedBitsArePadded(data: seq<byte>)
    ensures IsPadded(PaddedBits(data), data, SymbolCount(|data|))
  {
    var bs := PaddedBits(data);
    CountBack(|data|);
    forall i | 0 <= i < |data| ensures Octet(bs, i) == Bits(data[i], 8) {
      InputBitsAt(data, i);
      assert Octet(bs, i) == Octet(InputBits(data), i);
    }
  }

  function Min(a: int, b: int): int {
    if a < b then a else b
  }

  /** For every input and every buffer size, the loop writes exactly the symbols that fit, a
      terminator if there is room for one, and nothing else. A smaller buffer hence receives a prefix
      of what a larger one does. */
  method Base32Encode(data: seq<byte>, length: int, result: array<char>, bufSize: int) returns (r: int)
    requires bufSize <= result.Length
    requires 0 <= length <= 0x1000_0000 ==> length <= |data|
    modifies result
    ensures !(0 <= length <= 0x1000_0000) ==> r == -1 && result[..] == old(result[..])
    ensures 0 <= length <= 0x1000_0000 ==>
              && r == (if bufSize < 0 then 0 else Min(bufSize, SymbolCount(length)))
              && result[..r] == Encode(data[..length])[..r]
              && (r < bufSize ==> result[r] == '\0')
              && (forall k :: (if r < bufSize then r + 1 else r) <= k < result.Length ==> result[k] == old(result[k]))
  {
    if length < 0 || length > 0x1000_0000 {
      return -1;
    }
    ghost var input := data[..length];
    ghost var text, bs := Encode(input), PaddedBits(input);
    PaddedBitsArePadded(input);
    var count := 0;
    if length > 0 {
      count := EncodeLoop(data, length, result, bufSize, text, bs);
    }
    if count < bufSize {
      result[count] := '\0';
    }
    return count;
  }

  /** The link between what was read and what was written, at the head of the loop. */
  ghost predicate InStep(buffer: int, next: int, bitsLeft: int, length: int, bs: seq<bit>, count: nat, symbols: nat) {
    && 0 <= bitsLeft
    && (8 * next == 5 * count + bitsLeft || (next == length && bitsLeft == 0 && count == symbols))
    && Holds(buffer, bitsLeft, bs, 5 * count)
  }

  /** The loop body up to the write: the next symbol of the text. */
  method NextSymbol(data: seq<byte>, length: int, buffer: int, next: int, bitsLeft: int,
                    ghost text: seq<char>, ghost bs: seq<bit>, ghost count: nat)
    returns (buffer': int, next': int, bitsLeft': int, symbol: char)
    requires 1 <= next <= length <= |data| && 0 <= bitsLeft < 12 && (bitsLeft > 0 || next < length)
    requires Spells(text, bs) && IsPadded(bs, data[..length], |text|)
    requires InStep(buffer, next, bitsLeft, length, bs, count, |text|)
    ensures next <= next' <= length && 0 <= bitsLeft' < 12
    ensures count < |text| && symbol == text[count]
    ensures InStep(buffer', next', bitsLeft', length, bs, count + 1, |text|)
  {
    buffer', next', bitsLeft' := Refill(data, length, buffer, next, bitsLeft, bs, count, |text|);
    TakeSymbol(buffer', bitsLeft', bs, count);
    var index := ShiftRight(buffer', bitsLeft' - 5) % 32;
    bitsLeft' := bitsLeft' - 5;
    symbol := ALPHABET[index];
    assert 5 * (count + 1) == 5 * count + 5;
  }

  /** The first `count` symbols of the text have been written, and nothing else has. */
  ghost predicate Written(result: seq<char>, before: seq<char>, text: seq<char>, count: nat) {
    && |result| == |before| && count <= |text| && count <= |result|
    && result[..count] == text[..count] && result[count..] == before[count..]
  }

  method PutSymbol(result: array<char>, count: nat, symbol: char, ghost before: seq<char>, ghost text: seq<char>)
    requires Written(result[..], before, text, count) && count < result.Length && count < |text| && symbol == text[count]
    modifies result
    ensures Written(result[..], before, text, count + 1)
  {
    ghost var was := result[..];
    result[count] := symbol;
    assert result[..][..count] == was[..count] && result[..][count + 1..] == was[count..][1..];
    assert before[count + 1..] == before[count..][1..];
    assert text[..count + 1] == text[..count] + [symbol];
  }

  method EncodeLoop(data: seq<byte>, length: int, result: array<char>, bufSize: int, ghost text: seq<char>, ghost bs: seq<bit>)
    returns (count: int)
    requires 0 < length <= |data| && bufSize <= result.Length
    requires Spells(text, bs) && IsPadded(bs, data[..length], |text|)
    modifies result
    ensures count == (if bufSize < 0 then 0 else Min(bufSize, |text|))
    ensures Written(result[..], old(result[..]), text, count)
  {
    count := 0;
    var buffer: int := data[0];
    var next := 1;
    var bitsLeft := 8;
    LoopStarts(data, length, bs, |text|);
    while count < bufSize && (bitsLeft > 0 || next < length)
      invariant 0 <= count <= |text| && (count <= bufSize || count == 0)
      invariant 1 <= next <= length && 0 <= bitsLeft < 12
      invariant InStep(buffer, next, bitsLeft, length, bs, count, |text|)
      invariant Written(result[..], old(result[..]), text, count)
      decreases |text| - count
    {
      var symbol;
      buffer, next, bitsLeft, symbol := NextSymbol(data, length, buffer, next, bitsLeft, text, bs, count);
      PutSymbol(result, count, symbol, old(result[..]), text);
      count := count + 1;
    }
    LoopEnds(data[..length], buffer, next, bitsLeft, bs, count, |text|);
  }

  lemma LoopStarts(data: seq<byte>, length: int, bs: seq<bit>, symbols: nat)
    requires 0 < length <= |data| && IsPadded(bs, data[..length], symbols)
    ensures InStep(data[0], 1, 8, length, bs, 0, symbols)
  {
    assert Octet(bs, 0) == Bits(data[0], 8);
  }

  /** When everything is read and nothing is left over, every symbol has been written. */
  lemma LoopEnds(input: seq<byte>, buffer: int, next: int, bitsLeft: int, bs: seq<bit>, count: nat, symbols: nat)
    requires IsPadded(bs, input, symbols) && InStep(buffer, next, bitsLeft, |input|, bs, count, symbols)
    ensures bitsLeft == 0 && next == |input| ==> count == symbols
  {
  }

  lemma ByteComesNext(data: seq<byte>, length: int, bs: seq<bit>, symbols: nat, next: nat, at: nat)
    requires next < length <= |data| && IsPadded(bs, data[..length], symbols) && at == 8 * next
    ensures at + 8 <= |bs| && bs[at..at + 8] == Bits(data[next], 8)
  {
    assert Octet(bs, next) == Bits(data[next], 8);
  }

  lemma ZerosComeNext(input: seq<byte>, bs: seq<bit>, symbols: nat, count: nat, bitsLeft: nat)
    requires IsPadded(bs, input, symbols) && 8 * |input| == 5 * count + bitsLeft && 0 < bitsLeft < 5
    ensures count + 1 == symbols && 5 * count + 5 == |bs|
    ensures bs[5 * count + bitsLeft..5 * count + 5] == Zeros(5 - bitsLeft)
  {
    assert count + 1 == symbols;
    assert bs[5 * count + bitsLeft..5 * count + 5] == bs[8 * |input|..];
  }

  /** The first half of the loop body: one more byte, or the zeros at the end. */
  method Refill(data: seq<byte>, length: int, buffer: int, next: int, bitsLeft: int,
                ghost bs: seq<bit>, ghost count: nat, ghost symbols: nat)
    returns (buffer': int, next': int, bitsLeft': int)
    requires 1 <= next <= length <= |data| && 0 <= bitsLeft < 12
    requires 8 * next == 5 * count + bitsLeft && (bitsLeft > 0 || next < length)
    requires IsPadded(bs, data[..length], symbols) && Holds(buffer, bitsLeft, bs, 5 * count)
    ensures next <= next' <= length && 5 <= bitsLeft' <= 12 && count < symbols
    ensures 8 * next' == 5 * count + bitsLeft' || (next' == length && bitsLeft' == 5 && count + 1 == symbols)
    ensures Holds(buffer', bitsLeft', bs, 5 * count)
  {
    buffer', next', bitsLeft' := buffer, next, bitsLeft;
    if bitsLeft < 5 {
      if next < length {
        RefillByte(data, length, buffer, next, bitsLeft, bs, count, symbols);
        buffer' := Wrap32(256 * buffer + data[next]);
        next' := next + 1;
        bitsLeft' := bitsLeft + 8;
      } else {
        RefillZeros(data[..length], buffer, bitsLeft, bs, count, symbols);
        var pad := 5 - bitsLeft;
        buffer' := Wrap32(ShiftLeft(buffer, pad));
        bitsLeft' := bitsLeft + pad;
      }
    } else {
      EnoughLeft(data[..length], buffer, bitsLeft, bs, count, symbols);
    }
  }

  lemma RefillByte(data: seq<byte>, length: int, buffer: int, next: nat, bitsLeft: nat, bs: seq<bit>, count: nat, symbols: nat)
    requires next < length <= |data| && bitsLeft < 5 && 8 * next == 5 * count + bitsLeft
    requires IsPadded(bs, data[..length], symbols) && Holds(buffer, bitsLeft, bs, 5 * count)
    ensures Holds(Wrap32(256 * buffer + data[next]), bitsLeft + 8, bs, 5 * count) && count < symbols
  {
    ByteComesNext(data, length, bs, symbols, next, 5 * count + bitsLeft);
    LoadByte(buffer, bitsLeft, bs, 5 * count, data[next]);
  }

  lemma RefillZeros(input: seq<byte>, buffer: int, bitsLeft: nat, bs: seq<bit>, count: nat, symbols: nat)
    requires 0 < bitsLeft < 5 && 8 * |input| == 5 * count + bitsLeft
    requires IsPadded(bs, input, symbols) && Holds(buffer, bitsLeft, bs, 5 * count)
    ensures Holds(Wrap32(ShiftLeft(buffer, 5 - bitsLeft)), 5, bs, 5 * count) && count + 1 == symbols
  {
    ZerosComeNext(input, bs, symbols, count, bitsLeft);
    LoadPad(buffer, bitsLeft, bs, 5 * count);
  }

  lemma EnoughLeft(input: seq<byte>, buffer: int, bitsLeft: nat, bs: seq<bit>, count: nat, symbols: nat)
    requires 5 <= bitsLeft && IsPadded(bs, input, symbols) && Holds(buffer, bitsLeft, bs, 5 * count)
    ensures count < symbols
  {
  }
}
