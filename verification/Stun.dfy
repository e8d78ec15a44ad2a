/**
 The STUN client's message handling (internal/stun/stun.go): building a
 Binding Request and parsing a Binding Response, after sections 6, 15 and 15.2
 of RFC 5389.
 */
module Stun {
  import opened Bytes

  const BINDING_REQUEST: nat := 0x0001
  const BINDING_RESPONSE: nat := 0x0101
  const XOR_MAPPED_ADDRESS: nat := 0x0020
  const MAGIC_COOKIE: nat := 0x2112A442
  const COOKIE_HIGH: nat := 0x2112
  const HEADER_SIZE: nat := 20
  const TX_SIZE: nat := 12

  datatype Ip = V4(bytes: seq<byte>) | V6(bytes: seq<byte>)

  datatype UdpAddr = UdpAddr(ip: Ip, port: nat)

  datatype ParseError =
    | InvalidResponse
    | UnexpectedType
    | InvalidCookie
    | TransactionMismatch
    | NoXorMapped
    | TooShort
    | UnsupportedFamily

  datatype Result<+T> = Ok(value: T) | Err(error: ParseError)

  predicate ValidAddr(a: UdpAddr) {
    a.port < 0x1_0000 && |a.ip.bytes| == if a.ip.V4? then 4 else 16
  }

  // Exclusive or.

  function Parity(a: nat, b: nat): nat { (a + b) % 2 }

  function Xor(a: nat, b: nat): nat {
    if a == 0 && b == 0 then 0 else 2 * Xor(a / 2, b / 2) + Parity(a, b)
  }

  predicate Bit(n: nat, i: nat) {
    if i == 0 then n % 2 == 1 else Bit(n / 2, i - 1)
  }

  lemma {:induction false} NoBits(i: nat)
    ensures !Bit(0, i)
  {
    if i == 0 {
    } else {
      NoBits(i - 1);
    }
  }

  /** Bit by bit, it is the exclusive or. */
  lemma {:induction false} XorBits(a: nat, b: nat, i: nat)
    ensures Bit(Xor(a, b), i) <==> Bit(a, i) != Bit(b, i)
  {
    hide Xor, Bit;
    XorStep(a, b);
    BitStep(Xor(a, b), Xor(a / 2, b / 2), Parity(a, b), i);
    BitStep(a, a / 2, a % 2, i);
    BitStep(b, b / 2, b % 2, i);
    if i == 0 {
    } else {
      XorBits(a / 2, b / 2, i - 1);
    }
  }

  lemma BitStep(n: nat, half: nat, low: nat, i: nat)
    requires n == 2 * half + low && low < 2
    ensures Bit(n, i) <==> if i == 0 then low == 1 else Bit(half, i - 1)
  {
    assert n / 2 == half && n % 2 == low;
  }

  lemma {:induction false} XorTwice(a: nat, b: nat)
    ensures Xor(Xor(a, b), b) == a
  {
    hide Xor;
    if a == 0 && b == 0 {
      XorZero();
    } else {
      XorTwice(a / 2, b / 2);
      XorStep(a, b);
      XorStep(Xor(a, b), b);
      ParityTwice(a, b, Xor(a / 2, b / 2));
    }
  }

  lemma XorZero()
    ensures Xor(0, 0) == 0
  {
  }

  lemma ParityTwice(a: nat, b: nat, half: nat)
    ensures Parity(2 * half + Parity(a, b), b) == a % 2
    ensures (2 * half + Parity(a, b)) / 2 == half
  {
  }

  function Pow2(k: nat): (p: nat)
    ensures p > 0
  {
    if k == 0 then 1 else 2 * Pow2(k - 1)
  }

  lemma {:induction false} XorBelow(a: nat, b: nat, k: nat)
    requires a < Pow2(k) && b < Pow2(k)
    ensures Xor(a, b) < Pow2(k)
  {
    if k == 0 {
    } else {
      XorBelow(a / 2, b / 2, k - 1);
    }
  }

  function ShiftLeft(a: nat, k: nat): nat {
    if k == 0 then a else 2 * ShiftLeft(a, k - 1)
  }

  /** Exclusive or works on the high and low parts separately. */
  lemma {:induction false} XorSplit(a: nat, b: nat, c: nat, d: nat, k: nat)
    requires c < Pow2(k) && d < Pow2(k)
    ensures Xor(ShiftLeft(a, k) + c, ShiftLeft(b, k) + d) == ShiftLeft(Xor(a, b), k) + Xor(c, d)
  {
    hide Xor;
    if k == 0 {
      XorZero();
    } else {
      XorSplit(a, b, c / 2, d / 2, k - 1);
      ShiftIn(ShiftLeft(a, k - 1), ShiftLeft(b, k - 1), ShiftLeft(Xor(a, b), k - 1), c, d);
    }
  }

  lemma ShiftByte(a: nat)
    ensures ShiftLeft(a, 8) == a * 256
  {
    assert ShiftLeft(a, 2) == 2 * ShiftLeft(a, 1) == 4 * ShiftLeft(a, 0);
    assert ShiftLeft(a, 4) == 2 * ShiftLeft(a, 3) == 4 * ShiftLeft(a, 2);
    assert ShiftLeft(a, 6) == 2 * ShiftLeft(a, 5) == 4 * ShiftLeft(a, 4);
    assert ShiftLeft(a, 8) == 2 * ShiftLeft(a, 7) == 4 * ShiftLeft(a, 6);
  }

  lemma ShiftIn(a: nat, b: nat, x: nat, c: nat, d: nat)
    requires Xor(a + c / 2, b + d / 2) == x + Xor(c / 2, d / 2)
    ensures Xor(2 * a + c, 2 * b + d) == 2 * x + Xor(c, d)
  {
    hide Xor;
    XorStep(2 * a + c, 2 * b + d);
    XorStep(c, d);
    assert (2 * a + c) / 2 == a + c / 2 && (2 * b + d) / 2 == b + d / 2;
  }

  lemma XorStep(a: nat, b: nat)
    ensures Xor(a, b) == 2 * Xor(a / 2, b / 2) + Parity(a, b)
  {
  }

  lemma Pow2Values()
    ensures Pow2(8) == 256
    ensures Pow2(16) == 0x1_0000
    ensures Pow2(32) == 0x1_0000_0000
  {
    assert Pow2(4) == 16;
    assert Pow2(8) == 16 * Pow2(4);
    assert Pow2(12) == 16 * Pow2(8);
    assert Pow2(16) == 16 * Pow2(12);
    assert Pow2(20) == 16 * Pow2(16);
    assert Pow2(24) == 16 * Pow2(20);
    assert Pow2(28) == 16 * Pow2(24);
    assert Pow2(32) == 16 * Pow2(28);
  }

  function XorByte(a: byte, b: byte): (r: byte) {
    Pow2Values();
    XorBelow(a as nat, b as nat, 8);
    Xor(a as nat, b as nat) as byte
  }

  /** Byte by byte, and as big-endian numbers, it is the same operation. */
  lemma {:induction false} XorBytewise(a: seq<byte>, b: seq<byte>, r: seq<byte>)
    requires |a| == |b| == |r| && forall i :: 0 <= i < |r| ==> r[i] == XorByte(a[i], b[i])
    ensures GetUint(r) == Xor(GetUint(a), GetUint(b))
  {
    if a == [] {
    } else {
      var n := |a| - 1;
      hide Xor, XorByte, Pow2;
      XorBytewise(a[..n], b[..n], r[..n]);
      ByteMeans(a[n], b[n]);
      var x, y := GetUint(a[..n]), GetUint(b[..n]);
      ShiftByte(x);
      ShiftByte(y);
      ShiftByte(Xor(x, y));
      XorSplit(x, y, a[n] as nat, b[n] as nat, 8);
    }
  }

  lemma ByteMeans(a: byte, b: byte)
    ensures XorByte(a, b) as nat == Xor(a as nat, b as nat)
    ensures a as nat < Pow2(8) && b as nat < Pow2(8)
  {
    Pow2Values();
  }

  // The address attribute.

  /** What an IPv6 address is combined with: the cookie followed by the transaction ID. */
  function V6Key(txID: seq<byte>): nat { GetUint(PutUint(MAGIC_COOKIE, 4) + txID) }

  /** The reader of section 15.2, on numbers; a value longer than the address is accepted. */
  function ParseXor(data: seq<byte>, txID: seq<byte>): Result<UdpAddr> {
    if |data| < 8 then Err(TooShort)
    else
      var port := Xor(GetUint(data[2..4]), COOKIE_HIGH);
      if data[1] == 0x01 then Ok(UdpAddr(V4(PutUint(Xor(GetUint(data[4..8]), MAGIC_COOKIE), 4)), port))
      else if data[1] == 0x02 then
        if |data| < 20 then Err(TooShort)
        else Ok(UdpAddr(V6(PutUint(Xor(GetUint(data[4..20]), V6Key(txID)), 16)), port))
      else Err(UnsupportedFamily)
  }

  method ParseXorMappedAddress(data: seq<byte>, txID: seq<byte>) returns (r: Result<UdpAddr>)
    requires |txID| == TX_SIZE
    ensures r == ParseXor(data, txID)
  {
    if |data| < 8 {
      return Err(TooShort);
    }
    var family := data[1];
    var port := Xor(GetUint(data[2..4]), COOKIE_HIGH);
    if family == 0x01 {
      var addr := Xor(GetUint(data[4..8]), MAGIC_COOKIE);
      FourBytes(addr);
      r := Ok(UdpAddr(V4([(addr / 0x100_0000 % 256) as byte, (addr / 0x1_0000 % 256) as byte,
                          (addr / 0x100 % 256) as byte, (addr % 256) as byte]), port));
    } else if family == 0x02 {
      if |data| < 20 {
        return Err(TooShort);
      }
      var ip := XorV6(data[4..20], txID);
      r := Ok(UdpAddr(V6(ip), port));
    } else {
      r := Err(UnsupportedFamily);
    }
  }

  lemma FourBytes(v: nat)
    ensures PutUint(v, 4) == [(v / 0x100_0000 % 256) as byte, (v / 0x1_0000 % 256) as byte,
                              (v / 0x100 % 256) as byte, (v % 256) as byte]
  {
    var a := v / 256;
    var b := a / 256;
    var c := b / 256;
    assert PutUint(v, 4) == PutUint(a, 3) + [(v % 256) as byte];
    assert PutUint(a, 3) == PutUint(b, 2) + [(a % 256) as byte];
    assert PutUint(b, 2) == PutUint(c, 1) + [(b % 256) as byte];
    assert PutUint(c, 1) == PutUint(c / 256, 0) + [(c % 256) as byte];
    assert b == v / 0x1_0000 && c == v / 0x100_0000;
  }

  function CookieByte(i: nat): byte
    requires i < 4
  {
    if i == 0 then 0x21 else if i == 1 then 0x12 else if i == 2 then 0xA4 else 0x42
  }

  lemma CookieBytes()
    ensures forall i :: 0 <= i < 4 ==> PutUint(MAGIC_COOKIE, 4)[i] == CookieByte(i)
  {
    FourBytes(MAGIC_COOKIE);
  }

  /** The two byte loops of the IPv6 case. */
  method XorV6(xaddr: seq<byte>, txID: seq<byte>) returns (ip: seq<byte>)
    requires |xaddr| == 16 && |txID| == TX_SIZE
    ensures ip == PutUint(Xor(GetUint(xaddr), V6Key(txID)), 16)
  {
    hide XorByte, Xor, CookieByte;
    ghost var key := PutUint(MAGIC_COOKIE, 4) + txID;
    CookieBytes();
    hide PutUint;
    var out := new byte[16];
    for i := 0 to 4
      invariant forall j :: 0 <= j < i ==> out[j] == XorByte(xaddr[j], key[j])
    {
      out[i] := XorByte(xaddr[i], CookieByte(i));
    }
    for i := 0 to 12
      invariant forall j :: 0 <= j < 4 + i ==> out[j] == XorByte(xaddr[j], key[j])
    {
      out[4 + i] := XorByte(xaddr[4 + i], txID[i]);
    }
    ip := out[..];
    XorBytewise(xaddr, key, ip);
    PutOfGet(ip);
  }

  /** The value a server writes for an address, as section 15.2 describes it. */
  function MappedValue(a: UdpAddr, txID: seq<byte>, reserved: byte): seq<byte> {
    [reserved, if a.ip.V4? then 0x01 else 0x02]
    + PutUint(Xor(a.port, COOKIE_HIGH), 2)
    + if a.ip.V4? then PutUint(Xor(GetUint(a.ip.bytes), MAGIC_COOKIE), 4)
      else PutUint(Xor(GetUint(a.ip.bytes), V6Key(txID)), 16)
  }

  /** n bytes hold 8n bits. */
  lemma {:induction false} PowBytes(n: nat)
    ensures Pow256(n) == Pow2(8 * n)
  {
    if n == 0 {
    } else {
      PowBytes(n - 1);
      var k := 8 * (n - 1);
      assert Pow2(k + 8) == 2 * Pow2(k + 7) == 4 * Pow2(k + 6) == 8 * Pow2(k + 5) == 16 * Pow2(k + 4);
      assert Pow2(k + 4) == 2 * Pow2(k + 3) == 4 * Pow2(k + 2) == 8 * Pow2(k + 1) == 16 * Pow2(k);
    }
  }

  /** Masking n bytes with a key of n bytes and back. */
  lemma MaskRoundTrip(b: seq<byte>, key: nat)
    requires key < Pow256(|b|)
    ensures PutUint(Xor(GetUint(PutUint(Xor(GetUint(b), key), |b|)), key), |b|) == b
  {
    var v := GetUint(b);
    UintBound(b);
    PowBytes(|b|);
    XorBelow(v, key, 8 * |b|);
    UintRoundTrip(Xor(v, key), |b|);
    XorTwice(v, key);
    PutOfGet(b);
  }

  lemma PortRoundTrip(port: nat)
    requires port < 0x1_0000
    ensures Xor(GetUint(PutUint(Xor(port, COOKIE_HIGH), 2)), COOKIE_HIGH) == port
  {
    Pow2Values();
    Pow256Values();
    XorBelow(port, COOKIE_HIGH, 16);
    UintRoundTrip(Xor(port, COOKIE_HIGH), 2);
    XorTwice(port, COOKIE_HIGH);
  }

  lemma V6KeyBelow(txID: seq<byte>)
    requires |txID| == TX_SIZE
    ensures V6Key(txID) < Pow256(16)
  {
    UintBound(PutUint(MAGIC_COOKIE, 4) + txID);
  }

  /** Every IPv4 or IPv6 address and port is read back as it was written. */
  lemma AddressRoundTrip(a: UdpAddr, txID: seq<byte>, reserved: byte, extra: seq<byte>)
    requires ValidAddr(a) && |txID| == TX_SIZE
    ensures ParseXor(MappedValue(a, txID, reserved) + extra, txID) == Ok(a)
  {
    hide Xor, PutUint, GetUint, V6Key, Pow256;
    PortRoundTrip(a.port);
    var data := MappedValue(a, txID, reserved) + extra;
    assert data[2..4] == PutUint(Xor(a.port, COOKIE_HIGH), 2);
    if a.ip.V4? {
      assert data[4..8] == PutUint(Xor(GetUint(a.ip.bytes), MAGIC_COOKIE), 4);
      Pow256Values();
      MaskRoundTrip(a.ip.bytes, MAGIC_COOKIE);
    } else {
      assert data[4..20] == PutUint(Xor(GetUint(a.ip.bytes), V6Key(txID)), 16);
      V6KeyBelow(txID);
      MaskRoundTrip(a.ip.bytes, V6Key(txID));
    }
  }

  lemma MaskBack(b: seq<byte>, key: nat)
    requires key < Pow256(|b|)
    ensures PutUint(Xor(GetUint(PutUint(Xor(GetUint(b), key), |b|)), key), |b|) == b
    ensures |PutUint(Xor(GetUint(b), key), |b|)| == |b|
  {
    MaskRoundTrip(b, key);
  }

  lemma PortBack(b: seq<byte>)
    requires |b| == 2
    ensures Xor(GetUint(b), COOKIE_HIGH) < 0x1_0000
    ensures PutUint(Xor(Xor(GetUint(b), COOKIE_HIGH), COOKIE_HIGH), 2) == b
  {
    UintBound(b);
    Pow256Values();
    Pow2Values();
    XorBelow(GetUint(b), COOKIE_HIGH, 16);
    XorTwice(GetUint(b), COOKIE_HIGH);
    PutOfGet(b);
  }

  /** An address is read only from a value that encodes it: the two families, the mask and the lengths of section 15.2. */
  lemma AddressIsExact(value: seq<byte>, txID: seq<byte>, a: UdpAddr)
    requires |txID| == TX_SIZE
    ensures ParseXor(value, txID) == Ok(a) <==>
            ValidAddr(a) && exists reserved, extra :: value == MappedValue(a, txID, reserved) + extra
  {
    if ParseXor(value, txID) == Ok(a) {
      AddressSource(value, txID, a);
      var extra := value[if a.ip.V4? then 8 else 20..];
      assert value == MappedValue(a, txID, value[0]) + extra;
    }
    if ValidAddr(a) && exists reserved, extra :: value == MappedValue(a, txID, reserved) + extra {
      var reserved, extra :| value == MappedValue(a, txID, reserved) + extra;
      AddressRoundTrip(a, txID, reserved, extra);
    }
  }

  lemma AddressSource(value: seq<byte>, txID: seq<byte>, a: UdpAddr)
    requires |txID| == TX_SIZE && ParseXor(value, txID) == Ok(a)
    ensures var n := if a.ip.V4? then 8 else 20;
            ValidAddr(a) && |value| >= n && value == MappedValue(a, txID, value[0]) + value[n..]
  {
    PortBack(value[2..4]);
    V6KeyBelow(txID);
    CookieBelow();
    hide Xor, PutUint, GetUint, V6Key, Pow256;
    if a.ip.V4? {
      MaskBack(value[4..8], MAGIC_COOKIE);
      ValueParts(value, 8);
    } else {
      MaskBack(value[4..20], V6Key(txID));
      ValueParts(value, 20);
    }
  }

  lemma CookieBelow()
    ensures MAGIC_COOKIE < Pow256(4)
  {
    Pow256Values();
  }

  lemma ValueParts(value: seq<byte>, n: nat)
    requires 4 <= n <= |value|
    ensures value == [value[0], value[1]] + value[2..4] + value[4..n] + value[n..]
  {
  }

  // The message.

  /** Bytes needed to reach a multiple of four. */
  function Padding(n: nat): nat { if n % 4 == 0 then 0 else 4 - n % 4 }

  function Field(data: seq<byte>, at: nat, width: nat): nat
    requires at + width <= |data|
  {
    GetUint(data[at..at + width])
  }

  /** The first check of the header that fails, in the order the source makes them. */
  function HeaderError(data: seq<byte>, txID: seq<byte>): Option<ParseError> {
    if |data| < HEADER_SIZE then Some(InvalidResponse)
    else if Field(data, 0, 2) != BINDING_RESPONSE then Some(UnexpectedType)
    else if |data| < HEADER_SIZE + Field(data, 2, 2) then Some(InvalidResponse)
    else if Field(data, 4, 4) != MAGIC_COOKIE then Some(InvalidCookie)
    else if data[8..20] != txID then Some(TransactionMismatch)
    else None
  }

  function ScanAttributes(data: seq<byte>, at: nat, end: nat, txID: seq<byte>): Result<UdpAddr>
    decreases end - at
  {
    if at >= end || at + 4 > |data| then Err(NoXorMapped)
    else
      var typ, len := Field(data, at, 2), Field(data, at + 2, 2);
      if at + 4 + len > |data| then Err(NoXorMapped)
      else if typ == XOR_MAPPED_ADDRESS then ParseXor(data[at + 4..at + 4 + len], txID)
      else ScanAttributes(data, at + 4 + len + Padding(len), end, txID)
  }

  function Parse(data: seq<byte>, txID: seq<byte>): Result<UdpAddr> {
    var e := HeaderError(data, txID);
    if e.Some? then Err(e.value)
    else ScanAttributes(data, HEADER_SIZE, HEADER_SIZE + Field(data, 2, 2), txID)
  }

  /** On any bytes the reader stays in bounds and terminates. */
  method ParseBindingResponse(data: seq<byte>, expectedTxID: seq<byte>) returns (r: Result<UdpAddr>)
    requires |expectedTxID| == TX_SIZE
    ensures r == Parse(data, expectedTxID)
  {
    hide GetUint, ParseXor;
    if |data| < HEADER_SIZE {
      return Err(InvalidResponse);
    }
    var msgType := GetUint(data[0..2]);
    if msgType != BINDING_RESPONSE {
      return Err(UnexpectedType);
    }
    var msgLen := GetUint(data[2..4]);
    if |data| < HEADER_SIZE + msgLen {
      return Err(InvalidResponse);
    }
    var cookie := GetUint(data[4..8]);
    if cookie != MAGIC_COOKIE {
      return Err(InvalidCookie);
    }
    var txID := data[8..20];
    for i := 0 to 12
      invariant txID[..i] == expectedTxID[..i]
    {
      if txID[i] != expectedTxID[i] {
        return Err(TransactionMismatch);
      }
    }
    assert txID[..12] == txID && expectedTxID[..12] == expectedTxID;
    var end := HEADER_SIZE + msgLen;
    var offset := HEADER_SIZE;
    while offset < end
      invariant ScanAttributes(data, HEADER_SIZE, end, txID) == ScanAttributes(data, offset, end, txID)
      decreases end - offset
    {
      if offset + 4 > |data| {
        break;
      }
      var attrType := GetUint(data[offset..offset + 2]);
      var attrLen := GetUint(data[offset + 2..offset + 4]);
      offset := offset + 4;
      if offset + attrLen > |data| {
        return Err(NoXorMapped);
      }
      if attrType == XOR_MAPPED_ADDRESS {
        r := ParseXorMappedAddress(data[offset..offset + attrLen], txID);
        return;
      }
      offset := offset + attrLen;
      if attrLen % 4 != 0 {
        offset := offset + 4 - attrLen % 4;
      }
    }
    r := Err(NoXorMapped);
  }

  // What the parser recognises.

  /** An attribute on the wire; the padding bytes may hold anything. */
  datatype Attr = Attr(typ: nat, value: seq<byte>, pad: seq<byte>)

  predicate AttrOk(a: Attr) {
    a.typ < 0x1_0000 && |a.value| < 0x1_0000 && |a.pad| == Padding(|a.value|)
  }

  function AttrHead(typ: nat, len: nat): (b: seq<byte>)
    ensures |b| == 4
  {
    PutUint(typ, 2) + PutUint(len, 2)
  }

  function EncodeAttr(a: Attr): (b: seq<byte>)
    ensures |b| == 4 + |a.value| + |a.pad|
  {
    AttrHead(a.typ, |a.value|) + a.value + a.pad
  }

  function EncodeAttrs(attrs: seq<Attr>): seq<byte> {
    if attrs == [] then [] else EncodeAttr(attrs[0]) + EncodeAttrs(attrs[1..])
  }

  predicate OthersOnly(attrs: seq<Attr>) {
    forall i :: 0 <= i < |attrs| ==> AttrOk(attrs[i]) && attrs[i].typ != XOR_MAPPED_ADDRESS
  }

  predicate At(data: seq<byte>, at: nat, b: seq<byte>) {
    at + |b| <= |data| && data[at..at + |b|] == b
  }

  /** From `at` on: attributes of other types, then an XOR-MAPPED-ADDRESS that starts before `end`. */
  predicate Shape(data: seq<byte>, at: nat, end: nat, before: seq<Attr>, value: seq<byte>) {
    var start := at + |EncodeAttrs(before)|;
    && OthersOnly(before) && |value| < 0x1_0000
    && At(data, at, EncodeAttrs(before)) && start < end
    && At(data, start, AttrHead(XOR_MAPPED_ADDRESS, |value|)) && At(data, start + 4, value)
  }

  lemma AtSplit(data: seq<byte>, at: nat, a: seq<byte>, b: seq<byte>)
    ensures At(data, at, a + b) <==> At(data, at, a) && At(data, at + |a|, b)
  {
    if At(data, at, a + b) {
      assert data[at..at + |a|] == data[at..at + |a + b|][..|a|] == a;
      assert data[at + |a|..at + |a| + |b|] == data[at..at + |a + b|][|a|..] == b;
    }
    if At(data, at, a) && At(data, at + |a|, b) {
      assert data[at..at + |a + b|] == data[at..at + |a|] + data[at + |a|..at + |a| + |b|];
    }
  }

  /** The two header fields of an attribute, read back. */
  lemma HeadFields(data: seq<byte>, at: nat, typ: nat, len: nat)
    requires typ < 0x1_0000 && len < 0x1_0000
    ensures At(data, at, AttrHead(typ, len)) <==>
            at + 4 <= |data| && Field(data, at, 2) == typ && Field(data, at + 2, 2) == len
  {
    Pow256Values();
    UintRoundTrip(typ, 2);
    UintRoundTrip(len, 2);
    AtSplit(data, at, PutUint(typ, 2), PutUint(len, 2));
    hide GetUint, PutUint;
    if at + 4 <= |data| {
      PutOfGet(data[at..at + 2]);
      PutOfGet(data[at + 2..at + 4]);
    }
  }

  lemma AttrParts(data: seq<byte>, at: nat, a: Attr)
    ensures At(data, at, EncodeAttr(a)) <==>
            At(data, at, AttrHead(a.typ, |a.value|)) && At(data, at + 4, a.value) && At(data, at + 4 + |a.value|, a.pad)
  {
    AtSplit(data, at, AttrHead(a.typ, |a.value|) + a.value, a.pad);
    AtSplit(data, at, AttrHead(a.typ, |a.value|), a.value);
    hide AttrHead, At;
  }

  /** One turn of the attribute loop. */
  lemma ScanStep(data: seq<byte>, at: nat, end: nat, txID: seq<byte>)
    ensures at >= end || at + 4 > |data| ==> ScanAttributes(data, at, end, txID) == Err(NoXorMapped)
    ensures at < end && at + 4 <= |data| ==>
              var len := Field(data, at + 2, 2);
              ScanAttributes(data, at, end, txID) ==
              if at + 4 + len > |data| then Err(NoXorMapped)
              else if Field(data, at, 2) == XOR_MAPPED_ADDRESS then ParseXor(data[at + 4..at + 4 + len], txID)
              else ScanAttributes(data, at + 4 + len + Padding(len), end, txID)
  {
    hide Field, ParseXor, Padding;
  }

  lemma SkipsOther(data: seq<byte>, at: nat, end: nat, a: Attr, txID: seq<byte>)
    requires AttrOk(a) && a.typ != XOR_MAPPED_ADDRESS && At(data, at, EncodeAttr(a)) && at < end
    ensures ScanAttributes(data, at, end, txID) == ScanAttributes(data, at + |EncodeAttr(a)|, end, txID)
  {
    hide EncodeAttr, AttrHead, Field, ParseXor, ScanAttributes;
    AttrParts(data, at, a);
    HeadFields(data, at, a.typ, |a.value|);
    ScanStep(data, at, end, txID);
  }

  lemma {:induction false} ShapeIsFound(data: seq<byte>, at: nat, end: nat, before: seq<Attr>, value: seq<byte>, txID: seq<byte>)
    requires Shape(data, at, end, before, value)
    ensures ScanAttributes(data, at, end, txID) == ParseXor(value, txID)
    decreases |before|
  {
    hide *;
    if before == [] {
      FirstIsFound(data, at, end, value, txID);
    } else {
      ShapeShrinks(data, at, end, before, value);
      SkipsOther(data, at, end, before[0], txID);
      ShapeIsFound(data, at + |EncodeAttr(before[0])|, end, before[1..], value, txID);
    }
  }

  lemma FirstIsFound(data: seq<byte>, at: nat, end: nat, value: seq<byte>, txID: seq<byte>)
    requires Shape(data, at, end, [], value)
    ensures ScanAttributes(data, at, end, txID) == ParseXor(value, txID)
  {
    hide AttrHead, Field, ParseXor, ScanAttributes, OthersOnly;
    HeadFields(data, at, XOR_MAPPED_ADDRESS, |value|);
    ScanStep(data, at, end, txID);
  }

  lemma OthersSplit(attrs: seq<Attr>)
    requires attrs != [] && OthersOnly(attrs)
    ensures AttrOk(attrs[0]) && attrs[0].typ != XOR_MAPPED_ADDRESS && OthersOnly(attrs[1..])
  {
    hide AttrOk;
  }

  lemma EncodeSplit(attrs: seq<Attr>)
    requires attrs != []
    ensures EncodeAttrs(attrs) == EncodeAttr(attrs[0]) + EncodeAttrs(attrs[1..])
  {
  }

  lemma ShapeShrinks(data: seq<byte>, at: nat, end: nat, before: seq<Attr>, value: seq<byte>)
    requires before != [] && Shape(data, at, end, before, value)
    ensures AttrOk(before[0]) && before[0].typ != XOR_MAPPED_ADDRESS && At(data, at, EncodeAttr(before[0])) && at < end
    ensures Shape(data, at + |EncodeAttr(before[0])|, end, before[1..], value)
  {
    hide AttrHead, EncodeAttr, EncodeAttrs, At, AttrOk, OthersOnly;
    OthersSplit(before);
    EncodeSplit(before);
    var first, rest := EncodeAttr(before[0]), EncodeAttrs(before[1..]);
    AtSplit(data, at, first, rest);
    assert at + |EncodeAttrs(before)| == at + |first| + |rest|;
  }

  /** Whatever is found is an attribute of the message, after attributes of other types. */
  lemma {:induction false} FoundHasShape(data: seq<byte>, at: nat, end: nat, txID: seq<byte>)
    returns (before: seq<Attr>, value: seq<byte>)
    requires ScanAttributes(data, at, end, txID) != Err(NoXorMapped)
    ensures Shape(data, at, end, before, value)
    decreases end - at
  {
    hide AttrHead, ParseXor, Field, ScanAttributes, AttrOk, EncodeAttr;
    ScanStep(data, at, end, txID);
    var typ, len := Field(data, at, 2), Field(data, at + 2, 2);
    var next := at + 4 + len + Padding(len);
    HeadRead(data, at);
    value := data[at + 4..at + 4 + len];
    if typ == XOR_MAPPED_ADDRESS {
      before := [];
      assert At(data, at, []);
    } else {
      hide At, Shape;
      ScanStep(data, next, end, txID);
      var a := OtherAttr(data, at, typ, value, next);
      before, value := FoundHasShape(data, next, end, txID);
      ShapeGrows(data, at, end, a, before, value);
      before := [a] + before;
    }
  }

  lemma HeadRead(data: seq<byte>, at: nat)
    requires at + 4 <= |data|
    ensures Field(data, at, 2) < 0x1_0000 && Field(data, at + 2, 2) < 0x1_0000
    ensures At(data, at, AttrHead(Field(data, at, 2), Field(data, at + 2, 2)))
  {
    UintBound(data[at..at + 2]);
    UintBound(data[at + 2..at + 4]);
    Pow256Values();
    hide AttrHead, At, Pow256, GetUint;
    HeadFields(data, at, Field(data, at, 2), Field(data, at + 2, 2));
  }

  lemma OtherAttr(data: seq<byte>, at: nat, typ: nat, value: seq<byte>, next: nat) returns (a: Attr)
    requires typ < 0x1_0000 && |value| < 0x1_0000 && next == at + 4 + |value| + Padding(|value|) <= |data|
    requires At(data, at, AttrHead(typ, |value|)) && value == data[at + 4..at + 4 + |value|]
    ensures AttrOk(a) && a.typ == typ && At(data, at, EncodeAttr(a)) && at + |EncodeAttr(a)| == next
  {
    a := Attr(typ, value, data[at + 4 + |value|..next]);
    AttrParts(data, at, a);
    hide AttrHead;
  }

  lemma ShapeGrows(data: seq<byte>, at: nat, end: nat, a: Attr, later: seq<Attr>, value: seq<byte>)
    requires AttrOk(a) && a.typ != XOR_MAPPED_ADDRESS && At(data, at, EncodeAttr(a))
    requires Shape(data, at + |EncodeAttr(a)|, end, later, value)
    ensures Shape(data, at, end, [a] + later, value)
  {
    assert ([a] + later)[1..] == later;
    AtSplit(data, at, EncodeAttr(a), EncodeAttrs(later));
    assert EncodeAttrs([a] + later) == EncodeAttr(a) + EncodeAttrs(later);
    hide EncodeAttr, EncodeAttrs, At, AttrHead, AttrOk;
  }

  ghost predicate HasAddressBefore(data: seq<byte>, end: nat, value: seq<byte>) {
    exists before :: Shape(data, HEADER_SIZE, end, before, value)
  }

  ghost predicate HasAddress(data: seq<byte>, value: seq<byte>)
    requires |data| >= HEADER_SIZE
  {
    HasAddressBefore(data, HEADER_SIZE + Field(data, 2, 2), value)
  }

  lemma ParseXorErrors(value: seq<byte>, txID: seq<byte>)
    ensures ParseXor(value, txID) != Err(NoXorMapped)
  {
  }

  /**
   Exactly what the parser accepts. After a good header, the answer is that of
   the first XOR-MAPPED-ADDRESS attribute, and ErrNoXorMapped means there is none.
   */
  lemma ParseIsExact(data: seq<byte>, txID: seq<byte>, r: Result<UdpAddr>)
    requires HeaderError(data, txID).None? && r != Err(NoXorMapped)
    ensures Parse(data, txID) == r <==> exists value :: HasAddress(data, value) && ParseXor(value, txID) == r
    ensures Parse(data, txID) == Err(NoXorMapped) <==> forall value :: !HasAddress(data, value)
  {
    var end := HEADER_SIZE + Field(data, 2, 2);
    hide Shape, ParseXor, ScanAttributes, Field;
    forall value | HasAddress(data, value)
      ensures Parse(data, txID) == ParseXor(value, txID) != Err(NoXorMapped)
    {
      var before :| Shape(data, HEADER_SIZE, end, before, value);
      ShapeIsFound(data, HEADER_SIZE, end, before, value, txID);
      ParseXorErrors(value, txID);
    }
    if Parse(data, txID) != Err(NoXorMapped) {
      var before, value := FoundHasShape(data, HEADER_SIZE, end, txID);
      assert HasAddress(data, value);
    }
  }

  // Requests and responses.

  function TxBytes(txID: seq<byte>): (b: seq<byte>)
    ensures |b| == TX_SIZE
  {
    if |txID| >= TX_SIZE then txID[..TX_SIZE] else txID + PutUint(0, TX_SIZE - |txID|)
  }

  function Header(typ: nat, len: nat, txID: seq<byte>): (b: seq<byte>)
    ensures |b| == 8 + |txID|
  {
    PutUint(typ, 2) + PutUint(len, 2) + PutUint(MAGIC_COOKIE, 4) + txID
  }

  method MakeBindingRequest(txID: seq<byte>) returns (msg: seq<byte>)
    ensures msg == Header(BINDING_REQUEST, 0, TxBytes(txID))
    ensures |msg| == 20 && (|txID| == TX_SIZE ==> msg[8..20] == txID)
  {
    var n := if |txID| < TX_SIZE then |txID| else TX_SIZE;
    hide PutUint, Header, TxBytes;
    var buf := new byte[HEADER_SIZE](_ => 0);
    PutAt(buf, 0, PutUint(BINDING_REQUEST, 2));
    PutAt(buf, 2, PutUint(0, 2));
    PutAt(buf, 4, PutUint(MAGIC_COOKIE, 4));
    PutAt(buf, 8, txID[..n]);
    msg := buf[..];
    HeaderBytes(msg, txID, n);
  }

  lemma TxTail(tx: seq<byte>, txID: seq<byte>, n: nat)
    requires |tx| == TX_SIZE && n == if |txID| < TX_SIZE then |txID| else TX_SIZE
    requires forall i :: 0 <= i < TX_SIZE ==> tx[i] == if i < n then txID[i] else 0
    ensures tx == TxBytes(txID)
  {
    ZeroBytes(TX_SIZE - n);
    hide PutUint;
    if n == TX_SIZE {
      assert tx == txID[..TX_SIZE];
    } else {
      assert tx == txID + PutUint(0, TX_SIZE - n);
    }
  }

  lemma HeaderBytes(msg: seq<byte>, txID: seq<byte>, n: nat)
    requires |msg| == HEADER_SIZE && n == if |txID| < TX_SIZE then |txID| else TX_SIZE
    requires forall i :: 0 <= i < 2 ==> msg[i] == PutUint(BINDING_REQUEST, 2)[i] && msg[2 + i] == PutUint(0, 2)[i]
    requires forall i :: 0 <= i < 4 ==> msg[4 + i] == PutUint(MAGIC_COOKIE, 4)[i]
    requires forall j :: 8 <= j < HEADER_SIZE ==> msg[j] == if j < 8 + n then txID[j - 8] else 0
    ensures msg == Header(BINDING_REQUEST, 0, TxBytes(txID))
  {
    assert forall i :: 0 <= i < TX_SIZE ==> msg[8..][i] == msg[8 + i];
    TxTail(msg[8..], txID, n);
    hide PutUint, TxBytes;
    assert msg[..2] == PutUint(BINDING_REQUEST, 2);
    assert msg[2..4] == PutUint(0, 2);
    assert msg[4..8] == PutUint(MAGIC_COOKIE, 4);
    assert msg == msg[..2] + msg[2..4] + msg[4..8] + msg[8..];
  }

  lemma {:induction false} ZeroBytes(n: nat)
    ensures forall i :: 0 <= i < n ==> PutUint(0, n)[i] == 0
  {
    if n == 0 {
    } else {
      ZeroBytes(n - 1);
    }
  }

  /** Copy bytes into a buffer. */
  method PutAt(buf: array<byte>, at: nat, b: seq<byte>)
    requires at + |b| <= buf.Length
    modifies buf
    ensures forall j :: 0 <= j < buf.Length ==> buf[j] == if at <= j < at + |b| then b[j - at] else old(buf[j])
  {
    for i := 0 to |b|
      invariant forall j :: 0 <= j < buf.Length ==> buf[j] == if at <= j < at + i then b[j - at] else old(buf[j])
    {
      buf[at + i] := b[i];
    }
  }

  /** A message as a server sends it; `extra` is what follows the message in the datagram. */
  function Message(typ: nat, txID: seq<byte>, body: seq<byte>, extra: seq<byte>): seq<byte> {
    Header(typ, |body|, txID) + body + extra
  }

  lemma MessageFields(typ: nat, txID: seq<byte>, body: seq<byte>, extra: seq<byte>)
    requires |txID| == TX_SIZE && |body| < 0x1_0000 && typ < 0x1_0000
    ensures var m := Message(typ, txID, body, extra);
            && |m| == HEADER_SIZE + |body| + |extra|
            && Field(m, 0, 2) == typ && Field(m, 2, 2) == |body| && Field(m, 4, 4) == MAGIC_COOKIE
            && m[8..20] == txID && At(m, HEADER_SIZE, body)
  {
    Pow256Values();
    hide PutUint, GetUint, Pow256;
    UintRoundTrip(typ, 2);
    UintRoundTrip(|body|, 2);
    UintRoundTrip(MAGIC_COOKIE, 4);
    Slices(PutUint(typ, 2), PutUint(|body|, 2), PutUint(MAGIC_COOKIE, 4), txID, body, extra);
  }

  lemma Slices(a: seq<byte>, b: seq<byte>, c: seq<byte>, d: seq<byte>, body: seq<byte>, extra: seq<byte>)
    requires |a| == |b| == 2 && |c| == 4 && |d| == TX_SIZE
    ensures var m := a + b + c + d + body + extra;
            && m[0..2] == a && m[2..4] == b && m[4..8] == c && m[8..20] == d
            && m[HEADER_SIZE..HEADER_SIZE + |body|] == body
  {
  }

  /** A message is turned down for its type, then for its transaction, and otherwise accepted. */
  lemma HeaderOutcome(typ: nat, sent: seq<byte>, txID: seq<byte>, body: seq<byte>, extra: seq<byte>)
    requires |sent| == TX_SIZE && |txID| == TX_SIZE && |body| < 0x1_0000 && typ < 0x1_0000
    ensures HeaderError(Message(typ, sent, body, extra), txID) ==
            if typ != BINDING_RESPONSE then Some(UnexpectedType)
            else if sent != txID then Some(TransactionMismatch)
            else None
  {
    MessageFields(typ, sent, body, extra);
    hide Message, Field, At;
  }

  /** The header is good exactly when the data is a Binding Response to this transaction, its body whole. */
  lemma AcceptedIsResponse(data: seq<byte>, txID: seq<byte>)
    requires |txID| == TX_SIZE
    ensures HeaderError(data, txID).None? <==>
            exists body, extra :: |body| < 0x1_0000 && data == Message(0x0101, txID, body, extra)
  {
    if HeaderError(data, txID).None? {
      var n := Field(data, 2, 2);
      HeaderBytesOf(data, txID);
      UintBound(data[2..4]);
      Pow256Values();
      assert data == Message(0x0101, txID, data[20..20 + n], data[20 + n..]);
    }
    if exists body, extra :: |body| < 0x1_0000 && data == Message(0x0101, txID, body, extra) {
      var body, extra :| |body| < 0x1_0000 && data == Message(0x0101, txID, body, extra);
      HeaderOutcome(BINDING_RESPONSE, txID, txID, body, extra);
    }
  }

  lemma HeaderBytesOf(data: seq<byte>, txID: seq<byte>)
    requires HeaderError(data, txID).None?
    ensures |data| >= 20 + Field(data, 2, 2)
    ensures data[..20] == Header(0x0101, Field(data, 2, 2), txID)
  {
    PutOfGet(data[0..2]);
    PutOfGet(data[2..4]);
    PutOfGet(data[4..8]);
    hide PutUint, GetUint;
    assert data[..20] == data[0..2] + data[2..4] + data[4..8] + data[8..20];
  }

  /**
   A well-formed response, with any attributes of other types and any padding
   before the address, any bytes after it, and any bytes after the message,
   gives the address and port the server encoded.
   */
  lemma ResponseRoundTrip(a: UdpAddr, txID: seq<byte>, reserved: byte, before: seq<Attr>, after: seq<byte>, extra: seq<byte>)
    requires ValidAddr(a) && |txID| == TX_SIZE && OthersOnly(before)
    requires |ResponseBody(a, txID, reserved, before, after)| < 0x1_0000
    ensures Parse(Message(BINDING_RESPONSE, txID, ResponseBody(a, txID, reserved, before, after), extra), txID) == Ok(a)
  {
    hide Message, MappedValue, Shape, ScanAttributes, ParseXor, HeaderError, Field, ResponseBody, OthersOnly, At,
         AttrHead, EncodeAttrs, Parse;
    var value := MappedValue(a, txID, reserved);
    var body := ResponseBody(a, txID, reserved, before, after);
    var m := Message(BINDING_RESPONSE, txID, body, extra);
    MessageFields(BINDING_RESPONSE, txID, body, extra);
    HeaderOutcome(BINDING_RESPONSE, txID, txID, body, extra);
    AddressRoundTrip(a, txID, reserved, []);
    assert value + [] == value;
    BodyParts(a, txID, reserved, before, after);
    BodyShape(m, value, before, after);
    ShapeIsFound(m, HEADER_SIZE, HEADER_SIZE + |body|, before, value, txID);
    GoodHeader(m, txID);
  }

  lemma GoodHeader(data: seq<byte>, txID: seq<byte>)
    requires HeaderError(data, txID).None?
    ensures |data| >= HEADER_SIZE
    ensures Parse(data, txID) == ScanAttributes(data, HEADER_SIZE, HEADER_SIZE + Field(data, 2, 2), txID)
  {
    hide ScanAttributes, Field;
  }

  lemma BodyParts(a: UdpAddr, txID: seq<byte>, reserved: byte, before: seq<Attr>, after: seq<byte>)
    ensures var value := MappedValue(a, txID, reserved);
            ResponseBody(a, txID, reserved, before, after)
            == EncodeAttrs(before) + (AttrHead(XOR_MAPPED_ADDRESS, |value|) + (value + after))
  {
    hide MappedValue, AttrHead, EncodeAttrs;
  }

  function ResponseBody(a: UdpAddr, txID: seq<byte>, reserved: byte, before: seq<Attr>, after: seq<byte>): seq<byte> {
    EncodeAttrs(before) + (AttrHead(XOR_MAPPED_ADDRESS, |MappedValue(a, txID, reserved)|)
                           + (MappedValue(a, txID, reserved) + after))
  }

  lemma BodyShape(m: seq<byte>, value: seq<byte>, before: seq<Attr>, after: seq<byte>)
    requires OthersOnly(before)
    requires var body := EncodeAttrs(before) + (AttrHead(XOR_MAPPED_ADDRESS, |value|) + (value + after));
             |body| < 0x1_0000 && At(m, HEADER_SIZE, body)
    ensures var body := EncodeAttrs(before) + (AttrHead(XOR_MAPPED_ADDRESS, |value|) + (value + after));
            Shape(m, HEADER_SIZE, HEADER_SIZE + |body|, before, value)
  {
    var head, start := AttrHead(XOR_MAPPED_ADDRESS, |value|), HEADER_SIZE + |EncodeAttrs(before)|;
    AtSplit(m, HEADER_SIZE, EncodeAttrs(before), head + (value + after));
    AtSplit(m, start, head, value + after);
    AtSplit(m, start + 4, value, after);
    hide AttrHead, EncodeAttrs, At, OthersOnly;
  }
}
