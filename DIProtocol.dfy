/** Message packing for the Soundweb London direct-inject protocol: address
    packing, payload assembly, and framing (XOR checksum, escaping of
    reserved bytes, STX/ETX delimiters). Every operation is a pure function
    of its arguments; `DecodeMessage` is the inverse used to state what the
    encoder produces. */
module DIProtocol {
  import opened Common
  import opened Bytes

  datatype MessageKind =
    | Set | Subscribe | Unsubscribe
    | RecallVenuePreset | RecallParameterPreset
    | SetPercent | SubscribePercent | UnsubscribePercent | BumpPercent

  /** The valid message ids and their meaning. */
  const MessageIds: map<int, MessageKind> := map[
    0x88 := Set,
    0x89 := Subscribe,
    0x8a := Unsubscribe,
    0x8b := RecallVenuePreset,
    0x8c := RecallParameterPreset,
    0x8d := SetPercent,
    0x8e := SubscribePercent,
    0x8f := UnsubscribePercent,
    0x90 := BumpPercent
  ]

  /** Message ids that recall presets; the only ones allowed to omit address and SV. */
  const PresetIds: set<int> := {0x8b, 0x8c}

  /** Bytes in a successful payload: id, 6 address bytes, 2 SV bytes, 4 value bytes. */
  const PayloadLength: nat := 13

  const Stx: Byte := 0x02
  const Etx: Byte := 0x03
  const Esc: Byte := 0x1b

  /** The reverse lookup of MessageIds (a kind's id). */
  function MessageIdLookup(kind: MessageKind): (id: int)
    ensures id in MessageIds && MessageIds[id] == kind
  {
    match kind
    case Set => 0x88
    case Subscribe => 0x89
    case Unsubscribe => 0x8a
    case RecallVenuePreset => 0x8b
    case RecallParameterPreset => 0x8c
    case SetPercent => 0x8d
    case SubscribePercent => 0x8e
    case UnsubscribePercent => 0x8f
    case BumpPercent => 0x90
  }

  /** Every message id fits the one-byte id field. */
  lemma MessageIdIsByte(id: int)
    requires id in MessageIds
    ensures 0x88 <= id <= 0x90
  {
  }

  /** MessageIds is injective, so the reverse lookup loses nothing. */
  lemma MessageIdLookupInverts(id: int)
    requires id in MessageIds
    ensures MessageIdLookup(MessageIds[id]) == id
  {
  }

  // ---------------------------------------------------------------- addresses

  /** Ruby's `x & (2^k - 1)` on an arbitrary-precision two's complement
      integer is `x` modulo 2^k (never negative); `<<` by k multiplies by 2^k,
      and `|` of fields occupying disjoint bits adds them. */
  function PackAddress(node: int, vd: int, obj: int): (address: nat)
    ensures address < 0x1_0000_0000_0000
  {
    (node % 0x1_0000) * 0x1_0000_0000 + (vd % 0x100) * 0x100_0000 + obj % 0x100_0000
  }

  /** `address >> 32`, `(address >> 24) & 0xff` and `address & 0xffffff`. */
  function AddressNode(address: int): int { address / 0x1_0000_0000 }
  function AddressVd(address: int): int { (address / 0x100_0000) % 0x100 }
  function AddressObject(address: int): int { address % 0x100_0000 }

  /** Shifting and masking a packed address gives back each field reduced
      to its width. */
  lemma PackAddressFields(node: int, vd: int, obj: int)
    ensures AddressNode(PackAddress(node, vd, obj)) == node % 0x1_0000
    ensures AddressVd(PackAddress(node, vd, obj)) == vd % 0x100
    ensures AddressObject(PackAddress(node, vd, obj)) == obj % 0x100_0000
  {
    var n, v, o := node % 0x1_0000, vd % 0x100, obj % 0x100_0000;
    var address := PackAddress(node, vd, obj);
    DivModUnique(address, 0x100_0000, n * 0x100 + v, o);
    DivModUnique(n * 0x100 + v, 0x100, n, v);
    DivModByte(address, 0x1_0000 * 0x100);
  }

  /** Within their widths the three fields come back unchanged. */
  lemma UnpackPackAddress(node: int, vd: int, obj: int)
    requires 0 <= node < 0x1_0000 && 0 <= vd < 0x100 && 0 <= obj < 0x100_0000
    ensures AddressNode(PackAddress(node, vd, obj)) == node
    ensures AddressVd(PackAddress(node, vd, obj)) == vd
    ensures AddressObject(PackAddress(node, vd, obj)) == obj
  {
    PackAddressFields(node, vd, obj);
  }

  /** Every 48-bit address is the packing of its own fields. */
  lemma PackUnpackAddress(address: int)
    requires 0 <= address < 0x1_0000_0000_0000
    ensures PackAddress(AddressNode(address), AddressVd(address), AddressObject(address)) == address
  {
    var high := address / 0x100_0000;
    DivModUnique(address, 0x100_0000, high, AddressObject(address));
    DivModByte(address, 0x1_0000 * 0x100);
    DivModUnique(high, 0x100, AddressNode(address), AddressVd(address));
  }

  // ------------------------------------------------------------------ payload

  /** The raw payload for message `id`; `None` stands for Ruby's nil.
      The id is checked first, then the presence of address and SV (waived for
      presets), and then every field is packed: `[address].pack('Q>')[-6..]`
      and `[sv].pack('S>')` reject nil, so a preset without address or SV
      raises a TypeError rather than producing a shorter payload. */
  function AssemblePayload(id: int, address: Option<int>, sv: Option<int>, value: int): (r: Result<seq<Byte>>)
    ensures id !in MessageIds ==> r == Failure(InvalidMessageId(id))
    ensures id in MessageIds && id !in PresetIds && address == None ==> r == Failure(AddressRequired)
    ensures id in MessageIds && id !in PresetIds && address != None && sv == None ==> r == Failure(SvIdRequired)
    ensures id in PresetIds && (address == None || sv == None) ==> r == Failure(NilToInteger)
    ensures r.Success? <==> id in MessageIds && address.Some? && sv.Some?
    ensures r.Success? ==> |r.value| == PayloadLength
  {
    if id !in MessageIds then Failure(InvalidMessageId(id))
    else if address.None? && id !in PresetIds then Failure(AddressRequired)
    else if sv.None? && id !in PresetIds then Failure(SvIdRequired)
    else if address.None? || sv.None? then Failure(NilToInteger)
    else Success(BigEndian(id, 1) + BigEndian(address.value, 8)[2..] + BigEndian(sv.value, 2) + BigEndian(value, 4))
  }

  /** A successful payload holds the id, the address modulo 2^48, the SV modulo
      2^16 and the value modulo 2^32 (two's complement for negatives), each
      big-endian at a fixed offset. */
  lemma PayloadLayout(id: int, address: int, sv: int, value: int)
    requires id in MessageIds
    ensures 0 <= id < 256 && AssemblePayload(id, Some(address), Some(sv), value) == Success(
      [ByteOf(id)] + BigEndian(address % Pow256(6), 6) + BigEndian(sv % Pow256(2), 2) + BigEndian(value % Pow256(4), 4))
  {
    var r := AssemblePayload(id, Some(address), Some(sv), value);
    assert r.value == BigEndian(id, 1) + BigEndian(address, 8)[2..] + BigEndian(sv, 2) + BigEndian(value, 4);
    MessageIdIsByte(id);
    IdByte(id);
    LowSixBytes(address);
    BigEndianMod(sv, 2);
    BigEndianMod(value, 4);
  }

  /** `[id].pack('C')` for an id that fits in a byte. */
  lemma IdByte(id: int)
    requires 0 <= id < 256
    ensures BigEndian(id, 1) == [ByteOf(id)]
  {
    DivModUnique(id, 256, 0, id);
  }

  /** `[address].pack('Q>')[-6..]` is the 48-bit big-endian form of the address. */
  lemma LowSixBytes(address: int)
    ensures BigEndian(address, 8)[2..] == BigEndian(address % Pow256(6), 6)
  {
    BigEndianSplit(address, 2, 6);
    BigEndianMod(address, 6);
  }

  /** Reading the fields back from a successful payload. */
  lemma PayloadFields(id: int, address: int, sv: int, value: int)
    requires id in MessageIds
    ensures var p := AssemblePayload(id, Some(address), Some(sv), value).value;
      && p[0] as int == id
      && FromBigEndian(p[1..7]) == address % 0x1_0000_0000_0000
      && FromBigEndian(p[7..9]) == sv % 0x1_0000
      && FromBigEndian(p[9..13]) == value % 0x1_0000_0000
  {
    PayloadLayout(id, address, sv, value);
    var p := AssemblePayload(id, Some(address), Some(sv), value).value;
    var a, s, v := BigEndian(address % Pow256(6), 6), BigEndian(sv % Pow256(2), 2), BigEndian(value % Pow256(4), 4);
    assert p == [ByteOf(id)] + a + s + v;
    PayloadSlices(ByteOf(id), a, s, v);
    FieldValue(address, 6, 0x1_0000_0000_0000);
    FieldValue(sv, 2, 0x1_0000);
    FieldValue(value, 4, 0x1_0000_0000);
  }

  /** The offsets of the four payload fields. */
  lemma PayloadSlices(b: Byte, a: seq<Byte>, s: seq<Byte>, v: seq<Byte>)
    requires |a| == 6 && |s| == 2 && |v| == 4
    ensures var p := [b] + a + s + v;
      p[0] == b && p[1..7] == a && p[7..9] == s && p[9..13] == v
  {
  }

  /** A field packed modulo its width reads back as the value modulo that width. */
  lemma FieldValue(x: int, width: nat, limit: nat)
    requires limit == Pow256(width)
    ensures FromBigEndian(BigEndian(x % Pow256(width), width)) == x % limit
  {
    var y := x % limit;
    DivModUnique(y, limit, 0, y);
    FromBigEndianOfBigEndian(y, width);
  }

  // ---------------------------------------------------------------- framing

  /** The bytes the escaping regex matches: STX, ETX, ACK, NAK and ESC. */
  predicate Reserved(b: Byte)
  {
    b == 0x02 || b == 0x03 || b == 0x06 || b == 0x15 || b == 0x1b
  }

  /** The reserved bytes other than ESC, which never appear between STX and ETX. */
  predicate LineControl(b: Byte)
  {
    b == 0x02 || b == 0x03 || b == 0x06 || b == 0x15
  }

  /** `bytes.reduce(&:^)`, folded from the left, except that the empty
      sequence folds to 0 here where Ruby yields nil; SerializeMessage handles
      the empty case. The ensures: folding from the front gives the same byte. */
  function XorFold(s: seq<Byte>): (r: Byte)
    ensures s != [] ==> r == s[0] ^ XorFold(s[1..])
  {
    if s == [] then 0
    else
      var init := s[..|s| - 1];
      assert |s| >= 2 ==> init[1..] == s[1..][..|s| - 2];
      XorFold(init) ^ s[|s| - 1]
  }

  function CountReserved(s: seq<Byte>): nat
  {
    if s == [] then 0 else (if Reserved(s[0]) then 1 else 0) + CountReserved(s[1..])
  }

  /** The replacement the `gsub` block makes for one byte. */
  function EscapeByte(b: Byte): seq<Byte>
  {
    if Reserved(b) then [Esc, b | 0x80] else [b]
  }

  /** `gsub` over the whole string: each byte is replaced independently. */
  function Escape(s: seq<Byte>): (r: seq<Byte>)
    ensures |r| == |s| + CountReserved(s)
  {
    if s == [] then [] else EscapeByte(s[0]) + Escape(s[1..])
  }

  /** The wire form of a raw payload: STX, the escaped payload followed by
      its checksum, ETX. An empty payload has no checksum (`reduce` yields
      nil, which `pack('C')` rejects). */
  function SerializeMessage(raw: seq<Byte>): (r: Result<seq<Byte>>)
    ensures r.Failure? <==> raw == []
    ensures r.Failure? ==> r.error == NilToInteger
    ensures r.Success? ==> |r.value| == |raw| + 3 + CountReserved(raw + [XorFold(raw)])
    ensures r.Success? ==> r.value[0] == Stx && r.value[|r.value| - 1] == Etx
  {
    if raw == [] then Failure(NilToInteger)
    else Success([Stx] + Escape(raw + [XorFold(raw)]) + [Etx])
  }

  /** A wire-ready message that sets state variable `sv` of the object at
      (node, vd, obj) to `value`. */
  function SetSv(node: int, vd: int, obj: int, sv: int, value: int): (r: seq<Byte>)
    ensures |r| >= PayloadLength + 3 && r[0] == Stx && r[|r| - 1] == Etx
  {
    var payload := AssemblePayload(MessageIdLookup(Set), Some(PackAddress(node, vd, obj)), Some(sv), value);
    SerializeMessage(payload.value).value
  }

  // ---------------------------------------------------------------- decoding

  function Prepend(b: Byte, rest: Option<seq<Byte>>): Option<seq<Byte>>
  {
    match rest
    case None => None
    case Some(s) => Some([b] + s)
  }

  /** Undoes Escape: `ESC, x` becomes `x & 0x7f` when that is a reserved byte
      and x has its top bit set; any other reserved byte, or an ESC not
      followed by such an x, is malformed. */
  function Unescape(t: seq<Byte>): Option<seq<Byte>>
    decreases |t|
  {
    if t == [] then Some([])
    else if t[0] == Esc then
      if |t| >= 2 && t[1] & 0x80 == 0x80 && Reserved(t[1] & 0x7f)
      then Prepend(t[1] & 0x7f, Unescape(t[2..]))
      else None
    else if Reserved(t[0]) then None
    else Prepend(t[0], Unescape(t[1..]))
  }

  /** Recovers the raw payload from a frame: delimiters, escaping and checksum
      must all be as SerializeMessage makes them. */
  function DecodeMessage(frame: seq<Byte>): Option<seq<Byte>>
  {
    if |frame| < 2 || frame[0] != Stx || frame[|frame| - 1] != Etx then None
    else match Unescape(frame[1..|frame| - 1])
      case None => None
      case Some(body) =>
        if |body| >= 2 && XorFold(body) == 0 then Some(body[..|body| - 1]) else None
  }

  // ---------------------------------------------------------- framing lemmas

  /** Appending the checksum makes the XOR of the whole sequence zero. */
  lemma XorFoldAppend(s: seq<Byte>, b: Byte)
    ensures XorFold(s + [b]) == XorFold(s) ^ b
  {
    assert (s + [b])[..|s|] == s;
  }

  lemma ChecksumCancels(raw: seq<Byte>)
    ensures XorFold(raw + [XorFold(raw)]) == 0
  {
    XorFoldAppend(raw, XorFold(raw));
  }

  /** A byte with a zero XOR against the fold of the rest is that fold. */
  lemma ChecksumDetermined(body: seq<Byte>)
    requires |body| >= 1 && XorFold(body) == 0
    ensures body[|body| - 1] == XorFold(body[..|body| - 1])
  {
  }

  lemma {:induction false} EscapeUnreservedIsIdentity(s: seq<Byte>)
    requires forall i :: 0 <= i < |s| ==> !Reserved(s[i])
    ensures Escape(s) == s
  {
    if s != [] {
      EscapeUnreservedIsIdentity(s[1..]);
    }
  }

  /** Escaping works byte by byte, so it distributes over concatenation. */
  lemma {:induction false} EscapeAppend(a: seq<Byte>, b: seq<Byte>)
    ensures Escape(a + b) == Escape(a) + Escape(b)
  {
    if a == [] {
      assert a + b == b;
    } else {
      var e0 := EscapeByte(a[0]);
      assert (a + b)[0] == a[0];
      assert (a + b)[1..] == a[1..] + b;
      EscapeAppend(a[1..], b);
      calc {
        Escape(a + b);
        e0 + Escape(a[1..] + b);
        e0 + (Escape(a[1..]) + Escape(b));
        { SeqAssoc(e0, Escape(a[1..]), Escape(b)); }
        e0 + Escape(a[1..]) + Escape(b);
        Escape(a) + Escape(b);
      }
    }
  }

  /** Between its delimiters a frame never holds STX, ETX, ACK or NAK, and
      every ESC is followed by a byte with its top bit set. */
  lemma {:induction false} EscapedIsClean(s: seq<Byte>)
    ensures forall i :: 0 <= i < |Escape(s)| ==> !LineControl(Escape(s)[i])
    ensures forall i :: 0 <= i < |Escape(s)| && Escape(s)[i] == Esc ==>
      i + 1 < |Escape(s)| && Escape(s)[i + 1] & 0x80 == 0x80
  {
    if s != [] {
      EscapedIsClean(s[1..]);
      var e, rest := EscapeByte(s[0]), Escape(s[1..]);
      var t := Escape(s);
      assert t == e + rest;
      forall i | 0 <= i < |t|
        ensures !LineControl(t[i])
        ensures t[i] == Esc ==> i + 1 < |t| && t[i + 1] & 0x80 == 0x80
      {
        if i >= |e| {
          assert t[i] == rest[i - |e|];
          if i + 1 < |t| {
            assert t[i + 1] == rest[i + 1 - |e|];
          }
        }
      }
    }
  }

  lemma {:induction false} UnescapeEscape(s: seq<Byte>)
    ensures Unescape(Escape(s)) == Some(s)
  {
    if s != [] {
      var b := s[0];
      UnescapeEscape(s[1..]);
      var t := Escape(s);
      if Reserved(b) {
        assert t == [Esc, b | 0x80] + Escape(s[1..]);
        assert t[2..] == Escape(s[1..]);
        assert (b | 0x80) & 0x7f == b;
      } else {
        assert t == [b] + Escape(s[1..]);
        assert t[1..] == Escape(s[1..]);
      }
      assert [b] + s[1..] == s;
    }
  }

  lemma {:induction false} EscapeUnescape(t: seq<Byte>, s: seq<Byte>)
    requires Unescape(t) == Some(s)
    ensures Escape(s) == t
    decreases |t|
  {
    if t != [] {
      if t[0] == Esc {
        var rest := Unescape(t[2..]).value;
        EscapeUnescape(t[2..], rest);
        assert s == [t[1] & 0x7f] + rest;
        assert (t[1] & 0x7f) | 0x80 == t[1];
        assert t == [t[0], t[1]] + t[2..];
      } else {
        var rest := Unescape(t[1..]).value;
        EscapeUnescape(t[1..], rest);
        assert s == [t[0]] + rest;
        assert t == [t[0]] + t[1..];
      }
    }
  }

  /** STX and ETX occur in a frame only as its first and last byte. */
  lemma FrameDelimitersUnique(raw: seq<Byte>)
    requires raw != []
    ensures var f := SerializeMessage(raw).value;
      forall i :: 0 < i < |f| - 1 ==> f[i] != Stx && f[i] != Etx
  {
    var body := Escape(raw + [XorFold(raw)]);
    EscapedIsClean(raw + [XorFold(raw)]);
    var f := SerializeMessage(raw).value;
    forall i | 0 < i < |f| - 1
      ensures f[i] != Stx && f[i] != Etx
    {
      assert f[i] == body[i - 1];
    }
  }

  /** Decoding a serialized message gives back the raw payload. */
  lemma SerializeDecode(raw: seq<Byte>)
    requires raw != []
    ensures DecodeMessage(SerializeMessage(raw).value) == Some(raw)
  {
    var body := raw + [XorFold(raw)];
    var f := SerializeMessage(raw).value;
    assert f[1..|f| - 1] == Escape(body);
    UnescapeEscape(body);
    ChecksumCancels(raw);
    assert body[..|body| - 1] == raw;
  }

  /** A frame is its first byte, its interior and its last byte. */
  lemma Delimited(frame: seq<Byte>)
    requires |frame| >= 2
    ensures frame == [frame[0]] + frame[1..|frame| - 1] + [frame[|frame| - 1]]
  {
  }

  /** Anything DecodeMessage accepts is exactly the serialization of what it returns. */
  lemma DecodeSerialize(frame: seq<Byte>, raw: seq<Byte>)
    requires DecodeMessage(frame) == Some(raw)
    ensures SerializeMessage(raw) == Success(frame)
  {
    assert |frame| >= 2 && frame[0] == Stx && frame[|frame| - 1] == Etx;
    var interior := frame[1..|frame| - 1];
    assert Unescape(interior).Some?;
    var body := Unescape(interior).value;
    assert |body| >= 2 && XorFold(body) == 0 && raw == body[..|body| - 1];
    EscapeUnescape(interior, body);
    ChecksumDetermined(body);
    assert body == raw + [XorFold(raw)];
    Delimited(frame);
    assert SerializeMessage(raw) == Success([Stx] + Escape(body) + [Etx]);
  }

  // ----------------------------------------------------------- set_sv lemmas

  /** `set_sv` never fails, and its frame carries a Set message for the packed
      address, the SV modulo 2^16 and the value modulo 2^32. */
  lemma SetSvDecodes(node: int, vd: int, obj: int, sv: int, value: int)
    ensures var p := DecodeMessage(SetSv(node, vd, obj, sv, value));
      && p.Some?
      && |p.value| == PayloadLength
      && p.value[0] == 0x88
      && FromBigEndian(p.value[1..7]) == PackAddress(node, vd, obj)
      && FromBigEndian(p.value[7..9]) == sv % 0x1_0000
      && FromBigEndian(p.value[9..13]) == value % 0x1_0000_0000
  {
    var address := PackAddress(node, vd, obj);
    var payload := AssemblePayload(0x88, Some(address), Some(sv), value).value;
    assert SetSv(node, vd, obj, sv, value) == SerializeMessage(payload).value;
    SerializeDecode(payload);
    PayloadFields(0x88, address, sv, value);
    DivModUnique(address, 0x1_0000_0000_0000, 0, address);
  }
}
