/** Positional notation, most significant digit first: what toString(2), parseInt, padStart and a
    big-endian buffer all write or read. */
module Digits {
  // Binary digits.

  function WriteBits(v: nat, w: nat): (bits: seq<bool>)
    ensures |bits| == w
  {
    if w == 0 then [] else WriteBits(v / 2, w - 1) + [v % 2 == 1]
  }

  function ReadBits(bits: seq<bool>): nat {
    if bits == [] then 0 else 2 * ReadBits(bits[..|bits| - 1]) + if bits[|bits| - 1] then 1 else 0
  }

  function PowerOfTwo(w: nat): nat {
    if w == 0 then 1 else 2 * PowerOfTwo(w - 1)
  }

  lemma {:induction false} ReadWriteBits(v: nat, w: nat)
    requires v < PowerOfTwo(w)
    ensures ReadBits(WriteBits(v, w)) == v
  {
    if w > 0 {
      ReadWriteBits(v / 2, w - 1);
      assert WriteBits(v, w)[..w - 1] == WriteBits(v / 2, w - 1);
    }
  }

  lemma {:induction false} WriteReadBits(bits: seq<bool>)
    ensures ReadBits(bits) < PowerOfTwo(|bits|)
    ensures WriteBits(ReadBits(bits), |bits|) == bits
  {
    if bits != [] {
      var front := bits[..|bits| - 1];
      WriteReadBits(front);
      assert ReadBits(bits) / 2 == ReadBits(front);
      assert bits == front + [bits[|bits| - 1]];
    }
  }

  // Decimal digits and the bytes of a big-endian buffer.

  datatype Base = Denary | Byte256

  function Size(b: Base): nat {
    if b == Denary then 10 else 256
  }

  function Times(v: nat, b: Base): nat {
    if b == Denary then v * 10 else v * 256
  }

  function Quotient(v: nat, b: Base): nat {
    if b == Denary then v / 10 else v / 256
  }

  function Pow(b: Base, w: nat): nat {
    if w == 0 then 1 else Times(Pow(b, w - 1), b)
  }

  function Write(v: nat, b: Base, w: nat): (d: seq<nat>)
    ensures |d| == w && forall i :: 0 <= i < w ==> d[i] < Size(b)
  {
    if w == 0 then [] else Write(Quotient(v, b), b, w - 1) + [v - Times(Quotient(v, b), b)]
  }

  function Read(d: seq<nat>, b: Base): nat {
    if d == [] then 0 else Times(Read(d[..|d| - 1], b), b) + d[|d| - 1]
  }

  lemma {:induction false} ReadWrite(v: nat, b: Base, w: nat)
    requires v < Pow(b, w)
    ensures Read(Write(v, b, w), b) == v
  {
    if w > 0 {
      assert Quotient(v, b) < Pow(b, w - 1);
      ReadWrite(Quotient(v, b), b, w - 1);
      var d := Write(v, b, w);
      assert d[..w - 1] == Write(Quotient(v, b), b, w - 1);
    }
  }
}

/** RFC 4648 section 6 base32 without padding, as totp.ts writes and reads it. */
module Base32 {
  import opened Common
  import opened Digits

  type Byte = b: nat | b < 256

  const ALPHABET := "ABCDEFGHIJKLMNOPQRSTUVWXYZ234567"

  function SymbolAt(i: nat): char
    requires i < 32
  {
    if i < 26 then 'A' + i as char else '2' + (i - 26) as char
  }

  function IndexOf(c: char): (i: int)
    ensures -1 <= i < 32
  {
    if 'A' <= c <= 'Z' then (c - 'A') as int else if '2' <= c <= '7' then 26 + (c - '2') as int else -1
  }

  lemma SymbolIs(i: nat)
    requires i < 32
    ensures SymbolAt(i) == ALPHABET[i]
  {
    var letters, figures := "ABCDEFGHIJKLMNOPQRSTUVWXYZ", "234567";
    assert ALPHABET == letters + figures;
    if i < 13 {
    } else if i < 26 {
    } else {
      assert ALPHABET[i] == figures[i - 26];
    }
  }

  // The two functions above are indexing and searching in the alphabet.
  lemma AlphabetIs(i: nat, c: char)
    requires i < 32
    ensures ALPHABET[i] == c <==> IndexOf(c) == i
  {
    SymbolIs(i);
  }

  lemma BitWidths()
    ensures PowerOfTwo(5) == 32 && PowerOfTwo(8) == 256
  {
    assert PowerOfTwo(4) == 16;
  }

  function BitsOf(bytes: seq<Byte>): (bits: seq<bool>)
    ensures |bits| == 8 * |bytes|
  {
    if bytes == [] then [] else BitsOf(bytes[..|bytes| - 1]) + WriteBits(bytes[|bytes| - 1], 8)
  }

  // The bytes of the leading whole octets; what is left over is dropped.
  function Octets(bits: seq<bool>): (bytes: seq<Byte>)
    ensures |bytes| == |bits| / 8
  {
    if |bits| < 8 then []
    else
      WriteReadBits(bits[..8]);
      BitWidths();
      [ReadBits(bits[..8])] + Octets(bits[8..])
  }

  function Zeros(n: nat): seq<bool> {
    seq(n, _ => false)
  }

  // The last group is filled up with zero bits.
  function Group(bits: seq<bool>): (g: seq<bool>)
    ensures |g| == 5
  {
    if |bits| >= 5 then bits[..5] else bits + Zeros(5 - |bits|)
  }

  function Symbol(group: seq<bool>): char
    requires |group| == 5
  {
    WriteReadBits(group);
    BitWidths();
    SymbolAt(ReadBits(group))
  }

  function Symbols(bits: seq<bool>): (s: string)
    ensures |s| == (|bits| + 4) / 5
  {
    if bits == [] then "" else [Symbol(Group(bits))] + Symbols(bits[Min(5, |bits|)..])
  }

  function Encoded(bytes: seq<Byte>): string {
    Symbols(BitsOf(bytes))
  }

  ghost predicate IsBase32(s: string) {
    forall i :: 0 <= i < |s| ==> IndexOf(s[i]) >= 0
  }

  function SymbolBits(s: string): (bits: seq<bool>)
    requires IsBase32(s)
    ensures |bits| == 5 * |s|
  {
    if s == "" then [] else WriteBits(IndexOf(s[0]), 5) + SymbolBits(s[1..])
  }

  function Stripped(s: string): string {
    if s != "" && s[|s| - 1] == '=' then Stripped(s[..|s| - 1]) else s
  }

  function UpperChar(c: char): char {
    if 'a' <= c <= 'z' then c - 'a' + 'A' else c
  }

  function Upper(s: string): (u: string)
    ensures |u| == |s| && forall i :: 0 <= i < |s| ==> u[i] == UpperChar(s[i])
  {
    seq(|s|, i requires 0 <= i < |s| => UpperChar(s[i]))
  }

  ghost function Decoded(s: string): Option<seq<Byte>> {
    var clean := Upper(Stripped(s));
    if IsBase32(clean) then Some(Octets(SymbolBits(clean))) else None
  }

  lemma OctetsCons(first: seq<bool>, rest: seq<bool>)
    requires |first| == 8
    ensures ReadBits(first) < 256
    ensures Octets(first + rest) == [ReadBits(first)] + Octets(rest)
  {
    WriteReadBits(first);
    BitWidths();
    var bits := first + rest;
    assert bits[..8] == first && bits[8..] == rest;
  }

  method WriteOctets(value: seq<Byte>) returns (bits: seq<bool>)
    ensures bits == BitsOf(value)
  {
    bits := [];
    for k := 0 to |value|
      invariant bits == BitsOf(value[..k])
    {
      assert value[..k + 1][..k] == value[..k];
      bits := bits + WriteBits(value[k], 8);
    }
    assert value[..|value|] == value;
  }

  // The bits from an index on.
  function Rest(bits: seq<bool>, index: nat): seq<bool> {
    bits[Min(index, |bits|)..]
  }

  lemma RestOfRest(bits: seq<bool>, index: nat)
    requires index < |bits|
    ensures var rest := Rest(bits, index); rest == bits[index..] && rest != [] && rest[Min(5, |rest|)..] == Rest(bits, index + 5)
  {
  }

  // What is written, the next symbol and the rest.
  lemma SymbolsStep(written: string, bits: seq<bool>, index: nat)
    requires index < |bits|
    ensures written + Symbols(Rest(bits, index)) == written + [Symbol(Group(bits[index..]))] + Symbols(Rest(bits, index + 5))
  {
    RestOfRest(bits, index);
    var rest := Rest(bits, index);
    assert Symbols(rest) == [Symbol(Group(rest))] + Symbols(rest[Min(5, |rest|)..]);
  }

  method Base32Encode(value: seq<Byte>) returns (output: string)
    ensures output == Encoded(value)
  {
    var bits := WriteOctets(value);
    output := "";
    var index := 0;
    assert Rest(bits, 0) == bits;
    while index < |bits|
      invariant 0 <= index
      invariant output + Symbols(Rest(bits, index)) == Symbols(bits)
    {
      SymbolsStep(output, bits, index);
      output := output + [Symbol(Group(bits[index..]))];
      index := index + 5;
    }
    assert Rest(bits, index) == [];
  }

  method ReadSymbols(clean: string) returns (bits: Option<seq<bool>>)
    ensures bits.Some? <==> IsBase32(clean)
    ensures bits.Some? ==> bits.value == SymbolBits(clean)
  {
    var read := [];
    for k := 0 to |clean|
      invariant IsBase32(clean[..k]) && read == SymbolBits(clean[..k])
    {
      var index := IndexOf(clean[k]);
      if index < 0 {
        return None;
      }
      assert clean[..k + 1] == clean[..k] + [clean[k]];
      SymbolBitsAppend(clean[..k], clean[k]);
      read := read + WriteBits(index, 5);
    }
    assert clean[..|clean|] == clean;
    return Some(read);
  }

  lemma {:induction false} SymbolBitsAppend(s: string, c: char)
    requires IsBase32(s) && IndexOf(c) >= 0
    ensures IsBase32(s + [c]) && SymbolBits(s + [c]) == SymbolBits(s) + WriteBits(IndexOf(c), 5)
  {
    if s == "" {
      assert s + [c] == [c] && [c][1..] == "";
      assert SymbolBits([c]) == WriteBits(IndexOf(c), 5) + SymbolBits("");
    } else {
      SymbolBitsAppend(s[1..], c);
      SymbolBitsStep(s, c);
    }
  }

  lemma SymbolBitsStep(s: string, c: char)
    requires s != "" && IsBase32(s[1..] + [c]) && IndexOf(s[0]) >= 0
    ensures IsBase32(s + [c]) && SymbolBits(s + [c]) == WriteBits(IndexOf(s[0]), 5) + SymbolBits(s[1..] + [c])
  {
    var t := s + [c];
    assert t[1..] == s[1..] + [c] && t[0] == s[0];
  }

  lemma OctetsStep(bits: seq<bool>, index: nat)
    requires index + 8 <= |bits|
    ensures ReadBits(bits[index..index + 8]) < 256
    ensures Octets(bits[index..]) == [ReadBits(bits[index..index + 8])] + Octets(bits[index + 8..])
  {
    assert bits[index..] == bits[index..index + 8] + bits[index + 8..];
    OctetsCons(bits[index..index + 8], bits[index + 8..]);
  }

  method ReadOctets(bits: seq<bool>) returns (bytes: seq<Byte>)
    ensures bytes == Octets(bits)
  {
    bytes := [];
    var index := 0;
    while index + 8 <= |bits|
      invariant 0 <= index <= |bits|
      invariant bytes + Octets(bits[index..]) == Octets(bits)
    {
      ghost var rest := Octets(bits[index + 8..]);
      var octet := ReadBits(bits[index..index + 8]);
      OctetsStep(bits, index);
      assert bytes + ([octet] + rest) == bytes + [octet] + rest;
      bytes := bytes + [octet];
      index := index + 8;
    }
    assert Octets(bits[index..]) == [];
  }

  method Base32Decode(value: string) returns (r: Option<seq<Byte>>)
    ensures r == Decoded(value)
  {
    var bits := ReadSymbols(Upper(Stripped(value)));
    if bits == None {
      return None;
    }
    var bytes := ReadOctets(bits.value);
    return Some(bytes);
  }

  // ----- the round trip

  lemma SymbolReads(group: seq<bool>)
    requires |group| == 5
    ensures IndexOf(Symbol(group)) >= 0 && WriteBits(IndexOf(Symbol(group)), 5) == group
  {
    WriteReadBits(group);
    BitWidths();
  }

  lemma SymbolsCons(group: seq<bool>, rest: seq<bool>)
    requires |group| == 5
    ensures Symbols(group + rest) == [Symbol(group)] + Symbols(rest)
  {
    assert (group + rest)[..5] == group && (group + rest)[5..] == rest;
  }

  lemma SymbolBitsCons(c: char, s: string)
    requires IsBase32(s) && IndexOf(c) >= 0
    ensures IsBase32([c] + s) && SymbolBits([c] + s) == WriteBits(IndexOf(c), 5) + SymbolBits(s)
  {
    assert ([c] + s)[1..] == s;
  }

  lemma LastGroup(bits: seq<bool>)
    requires 0 < |bits| < 5
    ensures Symbols(bits) == [Symbol(Group(bits))]
    ensures IsBase32(Symbols(bits)) && SymbolBits(Symbols(bits)) == bits + Zeros(5 - |bits|)
  {
    assert Symbols(bits[|bits|..]) == "";
    SymbolReads(Group(bits));
    SymbolBitsCons(Symbol(Group(bits)), "");
    assert Symbols(bits) == [Symbol(Group(bits))] + "";
    assert SymbolBits("") == [];
  }

  // Reading symbols back gives the bits, filled up to a whole number of groups.
  lemma {:induction false} SymbolsReadBack(bits: seq<bool>)
    ensures IsBase32(Symbols(bits))
    ensures SymbolBits(Symbols(bits)) == bits + Zeros(5 * |Symbols(bits)| - |bits|)
    decreases |bits|
  {
    if |bits| >= 5 {
      var group, rest := bits[..5], bits[5..];
      assert bits == group + rest;
      SymbolsCons(group, rest);
      SymbolsReadBack(rest);
      SymbolReads(group);
      SymbolBitsCons(Symbol(group), Symbols(rest));
    } else if bits != [] {
      LastGroup(bits);
    }
  }

  lemma LastGroupFilled(bits: seq<bool>)
    requires 0 < |bits| < 5
    ensures Symbols(bits + Zeros(5 - |bits|)) == Symbols(bits)
  {
    LastGroup(bits);
    SymbolsCons(Group(bits), []);
    assert Group(bits) + [] == bits + Zeros(5 - |bits|);
  }

  // Filling up the last group does not change what is written.
  lemma {:induction false} SymbolsOfFilled(bits: seq<bool>, n: nat)
    requires n < 5 && (|bits| + n) % 5 == 0
    ensures Symbols(bits + Zeros(n)) == Symbols(bits)
    decreases |bits|
  {
    if |bits| >= 5 {
      var group, rest := bits[..5], bits[5..];
      SymbolsOfFilled(rest, n);
      SymbolsCons(group, rest);
      SymbolsCons(group, rest + Zeros(n));
      assert bits == group + rest;
      assert bits + Zeros(n) == group + (rest + Zeros(n));
    } else if bits != [] {
      assert n == 5 - |bits|;
      LastGroupFilled(bits);
    } else {
      assert bits + Zeros(n) == bits;
    }
  }

  lemma {:induction false} SymbolsOfBits(s: string)
    requires IsBase32(s)
    ensures Symbols(SymbolBits(s)) == s
  {
    if s != "" {
      var i := IndexOf(s[0]);
      assert SymbolAt(i) == s[0];
      BitWidths();
      ReadWriteBits(i, 5);
      SymbolsOfBits(s[1..]);
      SymbolsCons(WriteBits(i, 5), SymbolBits(s[1..]));
      assert s == [s[0]] + s[1..];
    }
  }

  lemma {:induction false} BitsAppend(a: seq<Byte>, b: seq<Byte>)
    ensures BitsOf(a + b) == BitsOf(a) + BitsOf(b)
    decreases |b|
  {
    if b == [] {
      assert a + b == a;
    } else {
      var front := b[..|b| - 1];
      BitsAppend(a, front);
      assert (a + b)[..|a + b| - 1] == a + front;
    }
  }

  lemma {:induction false} OctetsReadBack(bytes: seq<Byte>, rest: seq<bool>)
    requires |rest| < 8
    ensures Octets(BitsOf(bytes) + rest) == bytes
  {
    if bytes != [] {
      var first, tail := WriteBits(bytes[0], 8), BitsOf(bytes[1..]) + rest;
      assert BitsOf([bytes[0]]) == first;
      BitsAppend([bytes[0]], bytes[1..]);
      assert bytes == [bytes[0]] + bytes[1..];
      assert BitsOf(bytes) + rest == first + tail;
      BitWidths();
      ReadWriteBits(bytes[0], 8);
      OctetsReadBack(bytes[1..], rest);
      OctetsCons(first, tail);
    }
  }

  lemma {:induction false} BitsOfOctets(bits: seq<bool>)
    ensures BitsOf(Octets(bits)) == bits[..|bits| / 8 * 8]
    decreases |bits|
  {
    if |bits| >= 8 {
      BitsOfOctets(bits[8..]);
      FirstOctet(bits);
      WholeOctets(bits);
    }
  }

  lemma FirstOctet(bits: seq<bool>)
    requires |bits| >= 8
    ensures BitsOf(Octets(bits)) == bits[..8] + BitsOf(Octets(bits[8..]))
  {
    var first := Octets(bits)[0];
    assert Octets(bits) == [first] + Octets(bits[8..]);
    BitsAppend([first], Octets(bits[8..]));
    BitsOfOne(first);
    WriteReadBits(bits[..8]);
  }

  lemma BitsOfOne(b: Byte)
    ensures BitsOf([b]) == WriteBits(b, 8)
  {
    assert [b][..0] == [];
  }

  lemma WholeOctets(bits: seq<bool>)
    requires |bits| >= 8
    ensures bits[..|bits| / 8 * 8] == bits[..8] + bits[8..][..|bits[8..]| / 8 * 8]
  {
  }

  function Equals(n: nat): string {
    seq(n, _ => '=')
  }

  lemma {:induction false} StripsPadding(s: string, n: nat)
    requires s == "" || s[|s| - 1] != '='
    ensures Stripped(s + Equals(n)) == s
  {
    if n > 0 {
      assert (s + Equals(n))[..|s| + n - 1] == s + Equals(n - 1);
      StripsPadding(s, n - 1);
    } else {
      assert s + Equals(0) == s;
    }
  }

  // Every byte sequence comes back, typed in either case and with any amount of padding.
  lemma RoundTrip(bytes: seq<Byte>, typed: string, padding: nat)
    requires Upper(typed) == Encoded(bytes)
    ensures Decoded(typed + Equals(padding)) == Some(bytes)
  {
    var bits := BitsOf(bytes);
    SymbolsReadBack(bits);
    if typed != "" {
      var last := typed[|typed| - 1];
      assert UpperChar(last) == Encoded(bytes)[|typed| - 1];
    }
    StripsPadding(typed, padding);
    OctetsReadBack(bytes, Zeros(5 * |Encoded(bytes)| - |bits|));
  }

  lemma CanonicalIsFilled(whole: seq<bool>, rest: seq<bool>)
    requires IsBase32(Symbols(whole)) && SymbolBits(Symbols(whole)) == whole + rest
    ensures |rest| < 5 && rest == Zeros(|rest|)
  {
    SymbolsReadBack(whole);
    var filled := Zeros(5 * |Symbols(whole)| - |whole|);
    assert rest == (whole + rest)[|whole|..];
    assert filled == (whole + filled)[|whole|..];
  }

  lemma CanonicalBits(clean: string, whole: seq<bool>, rest: seq<bool>)
    requires IsBase32(clean) && SymbolBits(clean) == whole + rest
    ensures Symbols(whole) == clean <==> |rest| < 5 && rest == Zeros(|rest|)
  {
    if Symbols(whole) == clean {
      CanonicalIsFilled(whole, rest);
    }
    if |rest| < 5 && rest == Zeros(|rest|) {
      SymbolsOfFilled(whole, |rest|);
      SymbolsOfBits(clean);
    }
  }

  // Exactly the strings over the alphabet, in either case and with trailing padding, are accepted; and
  // writing the bytes out again gives the same string exactly when fewer than five bits were left over
  // and all of them were zero.
  lemma CanonicalExactly(s: string)
    requires Decoded(s).Some?
    ensures var clean := Upper(Stripped(s));
            var bits := SymbolBits(clean);
            var rest := bits[|bits| / 8 * 8..];
            Encoded(Decoded(s).value) == clean <==> |rest| < 5 && rest == Zeros(|rest|)
  {
    var clean := Upper(Stripped(s));
    var bits := SymbolBits(clean);
    var n := |bits| / 8 * 8;
    BitsOfOctets(bits);
    assert bits == bits[..n] + bits[n..];
    CanonicalBits(clean, bits[..n], bits[n..]);
  }
}

/** One-time codes (totp.ts): RFC 4226 section 5.3 truncation and RFC 6238 section 5.2 tolerance, over
    any keyed hash with a 20-byte digest. */
module Totp {
  import opened Common
  import opened Digits
  import opened Base32

  type Digest = d: seq<Byte> | |d| == 20 witness seq(20, _ => 0)

  // key and message to digest
  type Hmac = (seq<Byte>, seq<Byte>) -> Digest

  // The range of a Date, in milliseconds.
  type Millis = t: int | -8_640_000_000_000_000 <= t <= 8_640_000_000_000_000

  const STEP := 30_000

  function Counter(t: Millis): int {
    t / STEP
  }

  function Truncate(digest: Digest): (v: nat)
    ensures v < 0x8000_0000
  {
    var offset := digest[19] % 16;
    var d := (i: nat) requires i < 20 => digest[i] as int;
    d(offset) % 128 * 0x100_0000 + d(offset + 1) * 0x1_0000 + d(offset + 2) * 0x100 + d(offset + 3)
  }

  // The four bytes from the place the last nibble points to, without the sign bit.
  lemma TruncatedExactly(digest: Digest)
    ensures var n := digest[19] % 16;
            Truncate(digest) == Read([digest[n] % 128, digest[n + 1], digest[n + 2], digest[n + 3]], Byte256)
  {
    var n := digest[19] % 16;
    var a: int, b: int, c: int, d: int := digest[n] % 128, digest[n + 1], digest[n + 2], digest[n + 3];
    assert [a, b, c, d][..3] == [a, b, c] && [a, b, c][..2] == [a, b] && [a, b][..1] == [a] && [a][..0] == [];
    assert Read([a], Byte256) == a;
    assert Read([a, b], Byte256) == a * 256 + b;
    assert Read([a, b, c], Byte256) == (a * 256 + b) * 256 + c;
    assert Read([a, b, c, d], Byte256) == ((a * 256 + b) * 256 + c) * 256 + d;
  }

  // The example of RFC 4226, section 5.4.
  lemma TruncationExample()
    ensures var digest: Digest := [0x1f, 0x86, 0x98, 0x69, 0x0e, 0x02, 0xca, 0x16, 0x61, 0x85,
                                   0x50, 0xef, 0x7f, 0x19, 0xda, 0x8e, 0x94, 0x5b, 0x55, 0x5a];
            Truncate(digest) == 0x50ef_7f19 && Truncate(digest) % 1_000_000 == 872_921
  {
  }

  function DigitChar(d: nat): char
    requires d < 10
  {
    '0' + d as char
  }

  function Decimal(v: nat, w: nat): (s: string)
    ensures |s| == w
  {
    var d := Write(v, Denary, w);
    seq(w, i requires 0 <= i < w => DigitChar(d[i]))
  }

  const COUNTERS := 0x1_0000_0000_0000_0000

  // The key is what base32Decode makes of the secret. None: the counter does not fit an unsigned 64-bit
  // field, or the secret is not base32.
  ghost function CodeAt(hmac: Hmac, key: Option<seq<Byte>>, counter: int): Option<string> {
    if counter < 0 || counter >= COUNTERS || key == None then None
    else
      var message := Write(counter, Byte256, 8);
      assert forall i :: 0 <= i < 8 ==> message[i] < 256;
      Some(Decimal(Truncate(hmac(key.value, message)) % 1_000_000, 6))
  }

  predicate IsSpace(c: char) {
    var n := c as int;
    9 <= n <= 13 || 0x2000 <= n <= 0x200a || n in {32, 0xa0, 0x1680, 0x2028, 0x2029, 0x202f, 0x205f, 0x3000, 0xfeff}
  }

  function Trimmed(s: string): string {
    if s == "" then "" else if IsSpace(s[0]) then Trimmed(s[1..]) else [s[0]] + Trimmed(s[1..])
  }

  // White space is left out wherever it stands, and nothing else.
  lemma {:induction false} TrimmedAppends(s: string, t: string)
    ensures Trimmed(s + t) == Trimmed(s) + Trimmed(t)
  {
    if s == "" {
      assert s + t == t;
    } else {
      assert (s + t)[1..] == s[1..] + t;
      TrimmedAppends(s[1..], t);
    }
  }

  lemma TrimmedExactly(s: string, c: char, t: string)
    ensures Trimmed(s + [c] + t) == Trimmed(s) + (if IsSpace(c) then "" else [c]) + Trimmed(t)
    ensures Trimmed("") == ""
  {
    TrimmedAppends(s + [c], t);
    TrimmedAppends(s, [c]);
    assert [c][1..] == "";
  }

  predicate SixDigits(s: string) {
    |s| == 6 && forall i :: 0 <= i < 6 ==> '0' <= s[i] <= '9'
  }

  // None: a code could not be computed, which the source throws.
  function SomeMatch(codeAt: int -> Option<string>, code: string, counter: int, tries: nat): Option<bool>
    decreases tries
  {
    if tries == 0 then Some(false)
    else
      var expected := codeAt(counter);
      if expected == None then None
      else if expected.value == code then Some(true)
      else SomeMatch(codeAt, code, counter + 1, tries - 1)
  }

  ghost function Codes(hmac: Hmac, key: Option<seq<Byte>>): int -> Option<string> {
    (counter: int) => CodeAt(hmac, key, counter)
  }

  function Try(codeAt: int -> Option<string>, supplied: string, now: Millis): Option<bool> {
    var code := Trimmed(supplied);
    if !SixDigits(code) then Some(false) else SomeMatch(codeAt, code, Counter(now) - 1, 3)
  }

  ghost function VerifyTotp(hmac: Hmac, secret: string, supplied: string, now: Millis): Option<bool> {
    Try(Codes(hmac, Decoded(secret)), supplied, now)
  }

  // The four bytes read lie inside the digest wherever its last nibble points, and the code is the last
  // six decimal digits of the 31-bit number they spell.
  lemma CodeIsSixDigits(hmac: Hmac, key: Option<seq<Byte>>, counter: int)
    requires CodeAt(hmac, key, counter).Some?
    ensures var code := CodeAt(hmac, key, counter).value;
      && SixDigits(code) && Trimmed(code) == code
      && Read(seq(6, i requires 0 <= i < 6 => (code[i] - '0') as nat), Denary)
         == Truncate(hmac(key.value, Write(counter, Byte256, 8))) % 1_000_000
      && Read(Write(counter, Byte256, 8), Byte256) == counter
  {
    var code := CodeAt(hmac, key, counter).value;
    var v := Truncate(hmac(key.value, Write(counter, Byte256, 8))) % 1_000_000;
    assert Pow(Denary, 6) == 1_000_000;
    ReadWrite(v, Denary, 6);
    assert Pow(Byte256, 4) == 0x1_0000_0000;
    assert Pow(Byte256, 8) == COUNTERS;
    ReadWrite(counter, Byte256, 8);
    assert seq(6, i requires 0 <= i < 6 => (code[i] - '0') as nat) == Write(v, Denary, 6);
    NothingToTrim(code);
  }

  lemma {:induction false} NothingToTrim(s: string)
    requires forall i :: 0 <= i < |s| ==> !IsSpace(s[i])
    ensures Trimmed(s) == s
  {
    if s != "" {
      NothingToTrim(s[1..]);
      assert s == [s[0]] + s[1..];
    }
  }

  // With a base32 secret there is a six-digit code for every counter of the field, and otherwise for none.
  ghost predicate CodesFor(codeAt: int -> Option<string>, valid: bool) {
    && (forall c :: codeAt(c).Some? <==> valid && 0 <= c < COUNTERS)
    && (forall c :: codeAt(c).Some? ==> SixDigits(codeAt(c).value))
  }

  lemma CodesAreCodes(hmac: Hmac, key: Option<seq<Byte>>)
    ensures CodesFor(Codes(hmac, key), key.Some?)
  {
    forall c | CodeAt(hmac, key, c).Some? ensures SixDigits(CodeAt(hmac, key, c).value) {
      CodeIsSixDigits(hmac, key, c);
    }
  }

  // The code of the step before counter c, of that step, or of the next.
  predicate IsCodeNear(codeAt: int -> Option<string>, code: string, c: int) {
    Some(code) in {codeAt(c - 1), codeAt(c), codeAt(c + 1)}
  }

  lemma TriedExactly(codeAt: int -> Option<string>, valid: bool, supplied: string, now: Millis)
    requires CodesFor(codeAt, valid)
    ensures Try(codeAt, supplied, now).Some? <==> !SixDigits(Trimmed(supplied)) || (valid && now >= STEP)
    ensures Try(codeAt, supplied, now) == Some(true) <==> valid && now >= STEP && IsCodeNear(codeAt, Trimmed(supplied), Counter(now))
  {
    var c, code := Counter(now), Trimmed(supplied);
    assert c >= 1 <==> now >= STEP;
    assert SomeMatch(codeAt, code, c + 2, 0) == Some(false);
    assert SomeMatch(codeAt, code, c + 1, 1) == (if codeAt(c + 1) == None then None else Some(codeAt(c + 1).value == code));
  }

  // What is accepted for a secret, and when an exception is thrown instead: an entry that is not six
  // digits is refused; any other is judged exactly when the secret is base32 and the clock shows at least
  // one whole step; and it is accepted exactly when it is the code of the previous, this or the next step.
  lemma AcceptedExactly(hmac: Hmac, secret: string, supplied: string, now: Millis)
    ensures VerifyTotp(hmac, secret, supplied, now).Some? <==>
      !SixDigits(Trimmed(supplied)) || (Decoded(secret).Some? && now >= STEP)
    ensures VerifyTotp(hmac, secret, supplied, now) == Some(true) <==>
      Decoded(secret).Some? && now >= STEP && IsCodeNear(Codes(hmac, Decoded(secret)), Trimmed(supplied), Counter(now))
  {
    AcceptedForKey(hmac, Decoded(secret), supplied, now);
  }

  lemma AcceptedForKey(hmac: Hmac, key: Option<seq<Byte>>, supplied: string, now: Millis)
    ensures Try(Codes(hmac, key), supplied, now).Some? <==> !SixDigits(Trimmed(supplied)) || (key.Some? && now >= STEP)
    ensures Try(Codes(hmac, key), supplied, now) == Some(true) <==>
      key.Some? && now >= STEP && IsCodeNear(Codes(hmac, key), Trimmed(supplied), Counter(now))
  {
    CodesAreCodes(hmac, key);
    TriedExactly(Codes(hmac, key), key.Some?, supplied, now);
  }

  // A fresh code of a key, whatever the key was decoded from.
  lemma FreshForKey(hmac: Hmac, key: Option<seq<Byte>>, t: Millis, now: Millis, supplied: string)
    requires now >= STEP && -STEP <= now - t <= STEP
    requires Codes(hmac, key)(Counter(t)) == Some(Trimmed(supplied))
    ensures Try(Codes(hmac, key), supplied, now) == Some(true)
  {
    var codeAt := Codes(hmac, key);
    CodesAreCodes(hmac, key);
    assert codeAt(Counter(t)).Some?;
    WithinOneStep(t, now);
    TriedExactly(codeAt, key.Some?, supplied, now);
  }

  lemma WithinOneStep(t: Millis, now: Millis)
    requires -STEP <= now - t <= STEP
    ensures Counter(t) == Counter(now) - 1 || Counter(t) == Counter(now) || Counter(t) == Counter(now) + 1
  {
  }

  // A code of a secret made at time t is accepted at every later or earlier moment within one step of t.
  lemma FreshCodesAreAccepted(hmac: Hmac, secret: string, t: Millis, now: Millis, supplied: string)
    requires now >= STEP && -STEP <= now - t <= STEP
    requires Codes(hmac, Decoded(secret))(Counter(t)) == Some(Trimmed(supplied))
    ensures VerifyTotp(hmac, secret, supplied, now) == Some(true)
  {
    FreshForKey(hmac, Decoded(secret), t, now, supplied);
  }

  lemma EncodedIsUpper(bytes: seq<Byte>)
    ensures Upper(Encoded(bytes)) == Encoded(bytes)
  {
    SymbolsReadBack(BitsOf(bytes));
  }

  // From enrolment to login: the code an authenticator derives from the raw key at time t, or earlier or
  // later by one step at most, is accepted for the secret that was handed out for that key.
  lemma EnrolledKeyIsAccepted(hmac: Hmac, bytes: seq<Byte>, t: Millis, now: Millis)
    requires t >= 0 && now >= STEP && -STEP <= now - t <= STEP
    ensures CodeAt(hmac, Some(bytes), Counter(t)).Some?
    ensures VerifyTotp(hmac, Encoded(bytes), CodeAt(hmac, Some(bytes), Counter(t)).value, now) == Some(true)
  {
    assert Decoded(Encoded(bytes)) == Some(bytes) by {
      EncodedIsUpper(bytes);
      RoundTrip(bytes, Encoded(bytes), 0);
      assert Encoded(bytes) + Equals(0) == Encoded(bytes);
    }
    CodeIsSixDigits(hmac, Some(bytes), Counter(t));
    FreshForKey(hmac, Some(bytes), t, now, CodeAt(hmac, Some(bytes), Counter(t)).value);
  }
}
