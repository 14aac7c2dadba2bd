/**
 * The fixed-size packet the send loop of ReliableUDP.cpp builds on each
 * iteration: a 256-byte buffer zeroed with memset, into which at most 255
 * bytes of the greeting string are copied with memcpy, so the buffer always
 * ends in a zero byte.
 */
module Packets {

  type byte = x: int | 0 <= x < 256

  /** PacketSize in ReliableUDP.cpp. */
  const PacketSize: nat := 256

  /** A C string's bytes: each character truncated to a byte. */
  function Ascii(s: string): seq<byte>
  {
    seq(|s|, i requires 0 <= i < |s| => (s[i] as int) % 256)
  }

  const Zero: byte := 48

  /** std::to_string of a non-negative count: decimal digits, most significant first. */
  function Decimal(n: nat): (r: seq<byte>)
    ensures |r| >= 1
    ensures forall i :: 0 <= i < |r| ==> Zero <= r[i] <= Zero + 9
    ensures n > 0 ==> r[0] != Zero
  {
    if n < 10 then [Zero + n] else Decimal(n / 10) + [Zero + n % 10]
  }

  /** The number a string of decimal digits denotes (the inverse of Decimal). */
  function DecimalValue(ds: seq<byte>): nat
    requires forall i :: 0 <= i < |ds| ==> Zero <= ds[i] <= Zero + 9
  {
    if ds == [] then 0 else DecimalValue(ds[..|ds| - 1]) * 10 + (ds[|ds| - 1] - Zero)
  }

  /** Reading back the decimal text of a count gives the count. */
  lemma {:induction false} DecimalRoundTrip(n: nat)
    ensures DecimalValue(Decimal(n)) == n
  {
    var ds := Decimal(n);
    if n >= 10 {
      DecimalRoundTrip(n / 10);
      assert ds[..|ds| - 1] == Decimal(n / 10);
    } else {
      assert ds[..|ds| - 1] == [];
    }
  }

  function Pow10(k: nat): nat
  {
    if k == 0 then 1 else 10 * Pow10(k - 1)
  }

  /** A number below 10^k has at most k digits (k >= 1). */
  lemma {:induction false} DecimalLength(n: nat, k: nat)
    requires k >= 1 && n < Pow10(k)
    ensures |Decimal(n)| <= k
  {
    if n >= 10 {
      DecimalLength(n / 10, k - 1);
    }
  }

  const ServerPrefix: string := "Server is sending packet number: "
  const ClientPrefix: string := "Client is sending packet number: "

  /** The greeting text of the sending Server. */
  function ServerGreeting(count: nat): seq<byte>
  {
    Ascii(ServerPrefix) + Decimal(count)
  }

  /** The greeting text of the sending Client. */
  function ClientGreeting(count: nat): seq<byte>
  {
    Ascii(ClientPrefix) + Decimal(count)
  }

  /** Predicate: no byte of `b` is the C string terminator. */
  predicate NoTerminator(b: seq<byte>)
  {
    forall i :: 0 <= i < |b| ==> b[i] != 0
  }

  /** Predicate: every character of `s` is a non-NUL 7-bit ASCII character. */
  predicate AsciiText(s: string)
  {
    forall i :: 0 <= i < |s| ==> 0 < s[i] as int < 128
  }

  /** ASCII text keeps its length as bytes and holds no terminator. */
  lemma AsciiHasNoTerminator(s: string)
    requires AsciiText(s)
    ensures |Ascii(s)| == |s| && NoTerminator(Ascii(s))
  {
  }

  lemma ServerPrefixIsText()
    ensures |ServerPrefix| == 33 && AsciiText(ServerPrefix)
  {
  }

  lemma ClientPrefixIsText()
    ensures |ClientPrefix| == 33 && AsciiText(ClientPrefix)
  {
  }

  /** How many greeting bytes memcpy copies into the buffer. */
  function CopyLength(greeting: seq<byte>): (n: nat)
    ensures n <= |greeting| && n < PacketSize
    ensures n == |greeting| <==> |greeting| < PacketSize
    ensures |greeting| >= PacketSize ==> n == PacketSize - 1
  {
    if |greeting| < PacketSize then |greeting| else PacketSize - 1
  }

  /** The bytes of the buffer after memset and memcpy. */
  function PacketImage(greeting: seq<byte>): seq<byte>
  {
    greeting[..CopyLength(greeting)] + seq(PacketSize - CopyLength(greeting), i => 0)
  }

  /** Builds the packet in a fresh buffer: zero it, then copy the greeting in. */
  method BuildPacket(greeting: seq<byte>) returns (packet: seq<byte>)
    ensures packet == PacketImage(greeting)
  {
    var buffer := new byte[PacketSize];
    // memset(packet, 0, sizeof(packet))
    var i := 0;
    while i < PacketSize
      invariant 0 <= i <= PacketSize
      invariant forall k :: 0 <= k < i ==> buffer[k] == 0
    {
      buffer[i] := 0;
      i := i + 1;
    }
    // memcpy(packet, greeting.c_str(), min(size, PacketSize - 1))
    var n := if |greeting| < PacketSize then |greeting| else PacketSize - 1;
    var j := 0;
    while j < n
      invariant 0 <= j <= n
      invariant forall k :: 0 <= k < j ==> buffer[k] == greeting[k]
      invariant forall k :: j <= k < PacketSize ==> buffer[k] == 0
    {
      buffer[j] := greeting[j];
      j := j + 1;
    }
    packet := buffer[..];
    assert packet == PacketImage(greeting);
  }

  /**
   * Layout of every packet: exactly PacketSize bytes, the copied prefix of the
   * greeting, then zeros up to and including the last byte.
   */
  lemma PacketLayout(greeting: seq<byte>)
    ensures |PacketImage(greeting)| == PacketSize
    ensures forall i :: 0 <= i < CopyLength(greeting) ==> PacketImage(greeting)[i] == greeting[i]
    ensures forall i :: CopyLength(greeting) <= i < PacketSize ==> PacketImage(greeting)[i] == 0
    ensures PacketImage(greeting)[PacketSize - 1] == 0
  {
  }

  /** A process that is not the sender sends an all-zero packet. */
  lemma EmptyGreetingPacketIsZero()
    ensures PacketImage([]) == seq(PacketSize, i => 0)
  {
  }

  /** The text a receiver prints with %s: the bytes up to the first zero byte. */
  function CString(b: seq<byte>): seq<byte>
  {
    if b == [] || b[0] == 0 then [] else [b[0]] + CString(b[1..])
  }

  lemma {:induction false} CStringStopsAtTerminator(text: seq<byte>, rest: seq<byte>)
    requires NoTerminator(text)
    requires rest != [] && rest[0] == 0
    ensures CString(text + rest) == text
  {
    if text != [] {
      assert (text + rest)[1..] == text[1..] + rest;
      CStringStopsAtTerminator(text[1..], rest);
    }
  }

  /**
   * Reading a packet as a C string gives back the copied part of the greeting,
   * as long as the greeting holds no zero byte.
   */
  lemma PacketTextRoundTrip(greeting: seq<byte>)
    requires NoTerminator(greeting)
    ensures CString(PacketImage(greeting)) == greeting[..CopyLength(greeting)]
  {
    CStringStopsAtTerminator(greeting[..CopyLength(greeting)], seq(PacketSize - CopyLength(greeting), i => 0));
  }

  /** A 33-byte prefix followed by a count that fits a C int fits the packet whole and reads back unchanged. */
  lemma NumberedTextFits(prefix: seq<byte>, count: nat)
    requires |prefix| == 33 && NoTerminator(prefix)
    requires count < 0x8000_0000
    ensures |prefix + Decimal(count)| < PacketSize
    ensures CString(PacketImage(prefix + Decimal(count))) == prefix + Decimal(count)
  {
    assert Pow10(10) == 10_000_000_000;
    DecimalLength(count, 10);
    PacketTextRoundTrip(prefix + Decimal(count));
  }

  /**
   * While the count is within the range of a C int, both greetings fit the
   * packet whole and are read back unchanged.
   */
  lemma GreetingsFitPacket(count: nat)
    requires count < 0x8000_0000
    ensures |ServerGreeting(count)| < PacketSize && |ClientGreeting(count)| < PacketSize
    ensures CString(PacketImage(ServerGreeting(count))) == ServerGreeting(count)
    ensures CString(PacketImage(ClientGreeting(count))) == ClientGreeting(count)
  {
    ServerPrefixIsText();
    ClientPrefixIsText();
    AsciiHasNoTerminator(ServerPrefix);
    AsciiHasNoTerminator(ClientPrefix);
    NumberedTextFits(Ascii(ServerPrefix), count);
    NumberedTextFits(Ascii(ClientPrefix), count);
  }
}
