/** How the device token is stored: XOR with a fixed byte, then two lowercase hex
    digits a byte (src/thinr/config/config_manager.cpp:229-264). */
module TokenCodec {
  import opened Options

  const KEY: bv8 := 0x5A

  function HexDigit(n: bv8): char
    requires n < 16
  {
    if n == 0 then '0' else if n == 1 then '1' else if n == 2 then '2' else if n == 3 then '3'
    else if n == 4 then '4' else if n == 5 then '5' else if n == 6 then '6' else if n == 7 then '7'
    else if n == 8 then '8' else if n == 9 then '9' else if n == 10 then 'a' else if n == 11 then 'b'
    else if n == 12 then 'c' else if n == 13 then 'd' else if n == 14 then 'e' else 'f'
  }

  function HexValue(c: char): Option<bv8> {
    if c == '0' then Some(0) else if c == '1' then Some(1) else if c == '2' then Some(2)
    else if c == '3' then Some(3) else if c == '4' then Some(4) else if c == '5' then Some(5)
    else if c == '6' then Some(6) else if c == '7' then Some(7) else if c == '8' then Some(8)
    else if c == '9' then Some(9)
    else if c == 'a' || c == 'A' then Some(10) else if c == 'b' || c == 'B' then Some(11)
    else if c == 'c' || c == 'C' then Some(12) else if c == 'd' || c == 'D' then Some(13)
    else if c == 'e' || c == 'E' then Some(14) else if c == 'f' || c == 'F' then Some(15)
    else None
  }

  predicate LowerHex(c: char) {
    ('0' <= c <= '9') || ('a' <= c <= 'f')
  }

  predicate IsSpace(c: char) {
    c == ' ' || c == '\t' || c == '\n' || c == '\r' || c == 11 as char || c == 12 as char
  }

  /** std::stoi in base 16 on a substring of one or two characters, cast to a byte;
      None is the exception. A digit followed by something else still reads. */
  function StoiHex(s: string): Option<bv8>
    requires 1 <= |s| <= 2
  {
    if HexValue(s[0]).Some? then
      if |s| == 2 && HexValue(s[1]).Some? then Some((HexValue(s[0]).value << 4) | HexValue(s[1]).value)
      else HexValue(s[0])
    else if |s| == 2 && (IsSpace(s[0]) || s[0] == '+') then HexValue(s[1])
    else if |s| == 2 && s[0] == '-' && HexValue(s[1]).Some? then Some(0 - HexValue(s[1]).value)
    else None
  }

  function Scrambled(t: seq<bv8>): seq<bv8> {
    if t == [] then [] else [t[0] ^ KEY] + Scrambled(t[1..])
  }

  function Hex(t: seq<bv8>): string {
    if t == [] then [] else [HexDigit(t[0] >> 4), HexDigit(t[0] & 0x0F)] + Hex(t[1..])
  }

  function Unhex(s: string): Option<seq<bv8>>
    decreases |s|
  {
    if s == [] then Some([])
    else
      var byte := StoiHex(if |s| == 1 then s else s[..2]);
      Prefixed(byte, Unhex(if |s| == 1 then [] else s[2..]))
  }

  function Prefixed(byte: Option<bv8>, rest: Option<seq<bv8>>): Option<seq<bv8>> {
    if byte.None? || rest.None? then None else Some([byte.value] + rest.value)
  }

  function Encrypted(t: seq<bv8>): string { Hex(Scrambled(t)) }

  function Decrypted(s: string): Option<seq<bv8>> {
    var bytes := Unhex(s);
    if bytes.None? then None else Some(Scrambled(bytes.value))
  }

  lemma {:induction false} ScrambledAt(t: seq<bv8>, k: nat)
    requires k < |t|
    ensures |Scrambled(t)| == |t| && Scrambled(t)[k] == t[k] ^ KEY
    decreases |t|
  {
    if |t| > 1 {
      ScrambledAt(t[1..], if k > 0 then k - 1 else 0);
    }
  }

  lemma {:induction false} ScrambledTwice(t: seq<bv8>)
    ensures Scrambled(Scrambled(t)) == t
    decreases |t|
  {
    if t != [] {
      ScrambledTwice(t[1..]);
      assert Scrambled(t)[1..] == Scrambled(t[1..]);
      assert (t[0] ^ KEY) ^ KEY == t[0];
    }
  }

  /** The loop that scrambles in place. */
  method Scramble(a: array<bv8>)
    modifies a
    ensures a[..] == Scrambled(old(a[..]))
  {
    var i := 0;
    while i < a.Length
      invariant 0 <= i <= a.Length
      invariant forall k :: 0 <= k < i ==> a[k] == old(a[k]) ^ KEY
      invariant forall k :: i <= k < a.Length ==> a[k] == old(a[k])
    {
      a[i] := a[i] ^ KEY;
      i := i + 1;
    }
    ghost var was := old(a[..]);
    assert a.Length == 0 ==> was == [];
    forall k | 0 <= k < a.Length
      ensures |Scrambled(was)| == a.Length && a[..][k] == Scrambled(was)[k]
    {
      ScrambledAt(was, k);
    }
  }

  lemma {:induction false} HexAppend(a: seq<bv8>, b: seq<bv8>)
    ensures Hex(a + b) == Hex(a) + Hex(b)
    decreases |a|
  {
    if a == [] {
      assert a + b == b;
    } else {
      assert (a + b)[1..] == a[1..] + b;
      HexAppend(a[1..], b);
    }
  }

  method EncryptToken(token: seq<bv8>) returns (r: string)
    ensures r == Encrypted(token)
  {
    var a := new bv8[|token|](i requires 0 <= i < |token| => token[i]);
    assert a[..] == token;
    Scramble(a);
    r := "";
    var i := 0;
    while i < a.Length
      invariant 0 <= i <= a.Length
      invariant a[..] == Scrambled(token)
      invariant r == Hex(a[..i])
    {
      HexAppend(a[..i], [a[i]]);
      assert a[..i + 1] == a[..i] + [a[i]];
      assert a[i] >> 4 < 16 && a[i] & 0x0F < 16;
      r := r + [HexDigit(a[i] >> 4), HexDigit(a[i] & 0x0F)];
      i := i + 1;
    }
    assert a[..i] == a[..];
  }

  function Tail(s: string, i: nat): string {
    if i <= |s| then s[i..] else []
  }

  function Continued(done: seq<bv8>, rest: Option<seq<bv8>>): Option<seq<bv8>> {
    if rest.None? then None else Some(done + rest.value)
  }

  /** The substring of at most two characters at position i. */
  function PairAt(s: string, i: nat): string
    requires i < |s|
  {
    if i + 2 <= |s| then s[i..i + 2] else s[i..]
  }

  lemma UnhexStep(s: string, i: nat)
    requires i < |s|
    ensures Unhex(Tail(s, i)) == Prefixed(StoiHex(PairAt(s, i)), Unhex(Tail(s, i + 2)))
  {
  }

  lemma ContinuedSnoc(done: seq<bv8>, byte: Option<bv8>, rest: Option<seq<bv8>>)
    ensures byte.None? ==> Continued(done, Prefixed(byte, rest)).None?
    ensures byte.Some? ==> Continued(done, Prefixed(byte, rest)) == Continued(done + [byte.value], rest)
  {
    if byte.Some? && rest.Some? {
      assert done + ([byte.value] + rest.value) == done + [byte.value] + rest.value;
    }
  }

  lemma ContinuedNothing(bytes: Option<seq<bv8>>)
    ensures Continued([], bytes) == bytes
  {
    if bytes.Some? {
      assert [] + bytes.value == bytes.value;
    }
  }

  /** The loop over pairs of characters; None when a pair does not read as a number. */
  method ParseHex(s: string) returns (r: Option<seq<bv8>>)
    ensures r == Unhex(s)
  {
    var binary: seq<bv8> := [];
    var i := 0;
    ContinuedNothing(Unhex(s));
    assert Tail(s, 0) == s;
    while i < |s|
      invariant 0 <= i
      invariant Unhex(s) == Continued(binary, Unhex(Tail(s, i)))
      decreases |s| - i
    {
      var byte := StoiHex(PairAt(s, i));
      UnhexStep(s, i);
      ContinuedSnoc(binary, byte, Unhex(Tail(s, i + 2)));
      if byte.None? {
        return None;
      }
      binary := binary + [byte.value];
      i := i + 2;
    }
    assert Tail(s, i) == [] && binary + [] == binary;
    r := Some(binary);
  }

  method DecryptToken(s: string) returns (r: Option<seq<bv8>>)
    ensures r == Decrypted(s)
  {
    var binary := ParseHex(s);
    if binary.None? {
      return None;
    }
    var a := new bv8[|binary.value|](k requires 0 <= k < |binary.value| => binary.value[k]);
    assert a[..] == binary.value;
    Scramble(a);
    r := Some(a[..]);
  }

  lemma DigitValue(n: bv8)
    requires n < 16
    ensures HexValue(HexDigit(n)) == Some(n) && LowerHex(HexDigit(n))
  {
  }

  lemma HexPair(b: bv8)
    ensures b >> 4 < 16 && b & 0x0F < 16
    ensures LowerHex(HexDigit(b >> 4)) && LowerHex(HexDigit(b & 0x0F))
    ensures StoiHex([HexDigit(b >> 4), HexDigit(b & 0x0F)]) == Some(b)
  {
    DigitValue(b >> 4);
    DigitValue(b & 0x0F);
    assert ((b >> 4) << 4) | (b & 0x0F) == b;
  }

  lemma {:induction false} HexRoundTrip(t: seq<bv8>)
    ensures Unhex(Hex(t)) == Some(t)
    ensures |Hex(t)| == 2 * |t| && forall k :: 0 <= k < |Hex(t)| ==> LowerHex(Hex(t)[k])
    decreases |t|
  {
    if t != [] {
      var h := Hex(t);
      HexPair(t[0]);
      HexRoundTrip(t[1..]);
      assert h[..2] == [HexDigit(t[0] >> 4), HexDigit(t[0] & 0x0F)] && h[2..] == Hex(t[1..]);
      assert StoiHex(h[..2]) == Some(t[0]);
      assert [t[0]] + t[1..] == t;
      forall k | 0 <= k < |h|
        ensures LowerHex(h[k])
      {
        assert k >= 2 ==> h[k] == h[2..][k - 2];
      }
    }
  }

  /** Every token comes back, through twice as many lowercase hex digits. */
  lemma TokenRoundTrip(t: seq<bv8>)
    ensures Decrypted(Encrypted(t)) == Some(t)
    ensures |Encrypted(t)| == 2 * |t| && forall k :: 0 <= k < |Encrypted(t)| ==> LowerHex(Encrypted(t)[k])
  {
    HexRoundTrip(Scrambled(t));
    ScrambledTwice(t);
    if t != [] {
      ScrambledAt(t, 0);
    }
  }

  lemma {:induction false} HexAt(t: seq<bv8>, k: nat)
    requires k < |t|
    ensures |Hex(t)| == 2 * |t|
    ensures t[k] >> 4 < 16 && t[k] & 0x0F < 16
    ensures Hex(t)[2 * k] == HexDigit(t[k] >> 4) && Hex(t)[2 * k + 1] == HexDigit(t[k] & 0x0F)
    decreases |t|
  {
    HexPair(t[k]);
    if k > 0 {
      HexAt(t[1..], k - 1);
      assert Hex(t)[2 * k] == Hex(t[1..])[2 * (k - 1)] && Hex(t)[2 * k + 1] == Hex(t[1..])[2 * (k - 1) + 1];
    } else {
      HexRoundTrip(t);
    }
  }

  /** The stored form of a token, byte by byte: the two digits of its XOR with 0x5A. */
  lemma StoredAt(t: seq<bv8>, k: nat)
    requires k < |t|
    ensures |Encrypted(t)| == 2 * |t|
    ensures (t[k] ^ 0x5A) >> 4 < 16 && (t[k] ^ 0x5A) & 0x0F < 16
    ensures Encrypted(t)[2 * k] == "0123456789abcdef"[((t[k] ^ 0x5A) >> 4) as int]
    ensures Encrypted(t)[2 * k + 1] == "0123456789abcdef"[((t[k] ^ 0x5A) & 0x0F) as int]
  {
    ScrambledAt(t, k);
    HexAt(Scrambled(t), k);
    DigitOf((t[k] ^ 0x5A) >> 4);
    DigitOf((t[k] ^ 0x5A) & 0x0F);
  }

  lemma DigitOf(n: bv8)
    requires n < 16
    ensures HexDigit(n) == "0123456789abcdef"[n as int]
  {
  }

  predicate HexChar(c: char) {
    ('0' <= c <= '9') || ('a' <= c <= 'f') || ('A' <= c <= 'F')
  }

  /** The number parser takes one or two characters that begin with a hex digit, or a
      space or a sign before one. */
  predicate Readable(s: string) {
    s != "" && (HexChar(s[0]) || (|s| > 1 && (IsSpace(s[0]) || s[0] == '+' || s[0] == '-') && HexChar(s[1])))
  }

  lemma StoiReads(s: string)
    requires 1 <= |s| <= 2
    ensures StoiHex(s).Some? <==> Readable(s)
  {
  }

  predicate PairsReadable(s: string, i: nat)
    decreases |s| - i
  {
    i >= |s| || (Readable(PairAt(s, i)) && PairsReadable(s, i + 2))
  }

  lemma {:induction false} PairsReadableIff(s: string, i: nat)
    requires i % 2 == 0
    ensures PairsReadable(s, i) <==> forall k :: i <= k < |s| && k % 2 == 0 ==> Readable(PairAt(s, k))
    decreases |s| - i
  {
    if i < |s| {
      PairsReadableIff(s, i + 2);
    }
  }

  lemma {:induction false} ReadsIff(s: string, i: nat)
    ensures Unhex(Tail(s, i)).Some? <==> PairsReadable(s, i)
    ensures i <= |s| && Unhex(Tail(s, i)).Some? ==> |Unhex(Tail(s, i)).value| == (|s| - i + 1) / 2
    decreases |s| - i
  {
    if i < |s| {
      StoiReads(PairAt(s, i));
      UnhexStep(s, i);
      ReadsIff(s, i + 2);
    }
  }

  /** A stored token can be decrypted exactly when every pair of characters is readable,
      a last one alone counting as a pair; and each pair gives one byte. */
  lemma DecryptsIff(s: string)
    ensures Decrypted(s).Some? <==> forall k :: 0 <= k < |s| && k % 2 == 0 ==> Readable(PairAt(s, k))
    ensures Decrypted(s).Some? ==> |Decrypted(s).value| == (|s| + 1) / 2
  {
    assert Tail(s, 0) == s;
    ReadsIff(s, 0);
    PairsReadableIff(s, 0);
    if s != "" && Decrypted(s).Some? {
      ScrambledAt(Unhex(s).value, 0);
    }
  }

  lemma PairFromHex(a: char, b: char)
    requires LowerHex(a) && LowerHex(b)
    ensures StoiHex([a, b]).Some?
    ensures var v := StoiHex([a, b]).value;
            v >> 4 < 16 && v & 0x0F < 16 && HexDigit(v >> 4) == a && HexDigit(v & 0x0F) == b
  {
    var x, y := HexValue(a).value, HexValue(b).value;
    assert x < 16 && y < 16;
    assert ((x << 4) | y) >> 4 == x && ((x << 4) | y) & 0x0F == y;
    assert HexDigit(x) == a && HexDigit(y) == b;
  }

  lemma {:induction false} CanonicalHex(s: string)
    requires |s| % 2 == 0 && forall k :: 0 <= k < |s| ==> LowerHex(s[k])
    ensures Unhex(s).Some? && Hex(Unhex(s).value) == s
    decreases |s|
  {
    if s != [] {
      PairFromHex(s[0], s[1]);
      assert s[..2] == [s[0], s[1]];
      CanonicalHex(s[2..]);
      assert s == [s[0], s[1]] + s[2..];
    }
  }

  /** A stored token that reads at all is written back unchanged exactly when it is
      an even number of lowercase hex digits. */
  lemma StoredFormIff(s: string)
    requires Decrypted(s).Some?
    ensures Encrypted(Decrypted(s).value) == s <==>
            |s| % 2 == 0 && forall k :: 0 <= k < |s| ==> LowerHex(s[k])
  {
    var bytes := Unhex(s).value;
    ScrambledTwice(bytes);
    HexRoundTrip(bytes);
    if |s| % 2 == 0 && forall k :: 0 <= k < |s| ==> LowerHex(s[k]) {
      CanonicalHex(s);
    }
  }
}
