# EQ loader: direct-inject messages and the parametric EQ controller

This project models the core of an EQ loader for Soundweb London DSPs in
Dafny. It covers two parts:

- the direct-inject protocol encoder (`MB::EQLoader::DIProtocol`). It packs a
  node / virtual device / object triple into a 48-bit address and assembles
  the 13-byte payload of a message: the id, the address, the state variable
  (SV) and the value, all big-endian. It then frames the payload: an XOR
  checksum is appended, the reserved bytes STX, ETX, ACK, NAK and ESC are
  escaped as `ESC, b | 0x80`, and the result is wrapped in STX … ETX.
- the parametric EQ controller (`MB::EQLoader::PEQ`). It maps a band and a
  parameter to an SV and converts a natural value (Hz, dB, octaves, a
  symbolic filter type, a slope in dB/octave) to the device's integer range.
  It then emits one `set_sv` message per change and writes it to the io, if
  one was given.

Modules:

- `Common`: `Option`, `Result`, and one `Error` constructor per exception the
  source can raise. It also defines `Collect`/`Delivered`, which describe how
  a Ruby array literal of calls that may raise evaluates: the first exception
  propagates, and the calls before it have already run.
- `Bytes`: big-endian packing (`pack('C')`, `'S>'`, `'L>'`, `'Q>'`) and its
  inverse.
- `DIProtocol`: the message table, address packing, payload assembly and
  framing, all pure functions. `DecodeMessage` is the inverse of framing; it
  is used to state what the encoder produces.
- `Values`: the Ruby values a setter receives (nil, booleans, integers,
  floats as reals, symbols) and the conversions from `value_types.rb`
  (`binary`, `log`, `scalar`) plus `to_i`.
- `ParametricEq`: the SV table, the type and slope tables, `sv_id`,
  `convert_value`, and the class `Peq`.
  - The methods of `Peq` are the public setters. Its ghost field `written`
    records every message written to the io, oldest first.
  - The pure function `CreateSet` specifies each message.
  - `set_band` is specified by `BandSteps`, the six setter outcomes in call
    order, through `Collect` and `Delivered`.

Where the doc comment of `assemble_payload` and its code disagree, the model
follows the code. The comment says a preset-recalling message may omit the
address and the SV and then uses a shorter payload. The code still packs
both fields, and `pack` raises a `TypeError` on nil. So a preset message with
a missing address or SV fails (`NilToInteger`), and every successful payload
is 13 bytes long.

## Model

| member | source | states |
|---|---|---|
| DIProtocol.MessageIdLookup | lib/mb/eq_loader/di_protocol.rb:11-22 | the reverse lookup gives, for each kind, an id of MESSAGE_IDS that maps back to that kind |
| DIProtocol.MessageIdLookupInverts | lib/mb/eq_loader/di_protocol.rb:11-22 | MESSAGE_IDS is one-to-one: looking up the kind of a valid id and inverting gives the id back |
| DIProtocol.MessageIdIsByte | lib/mb/eq_loader/di_protocol.rb:11-21 | every valid message id lies in 0x88..0x90, so it fits the one byte `pack('C')` writes |
| DIProtocol.PackAddress | lib/mb/eq_loader/di_protocol.rb:55-60 | the packed address always fits in 48 bits |
| DIProtocol.PackAddressFields | lib/mb/eq_loader/di_protocol.rb:55-60 | node, virtual device and object can be read back from the packed address, masked to 16, 8 and 24 bits |
| DIProtocol.UnpackPackAddress | lib/mb/eq_loader/di_protocol.rb:55-60 | for fields within their widths, unpacking the packed address gives exactly the node, vd and object (e.g. 0x1234, 0x56, 0x789abc) |
| DIProtocol.PackUnpackAddress | lib/mb/eq_loader/di_protocol.rb:55-60 | every 48-bit address is the packing of its own three fields |
| DIProtocol.AssemblePayload | lib/mb/eq_loader/di_protocol.rb:39-53 | errors come in the source's order: invalid id, then missing address, then missing SV (the last two waived for presets); a preset missing either field raises from `pack`; the call succeeds exactly when the id is valid and both fields are given, and then yields 13 bytes |
| DIProtocol.PayloadLayout | lib/mb/eq_loader/di_protocol.rb:47-52 | a successful payload is the id byte, the low six bytes of the 64-bit address, the 16-bit SV and the 32-bit value, each big-endian and reduced modulo its width |
| DIProtocol.PayloadFields | lib/mb/eq_loader/di_protocol.rb:47-52 | reading the payload at offsets 0, 1..7, 7..9 and 9..13 gives back the id, address mod 2^48, SV mod 2^16 and value mod 2^32 |
| DIProtocol.Escape | lib/mb/eq_loader/di_protocol.rb:67 | escaping lengthens the payload by one byte per reserved byte |
| DIProtocol.SerializeMessage | lib/mb/eq_loader/di_protocol.rb:62-70 | fails exactly on an empty payload (the checksum is nil); otherwise starts with STX, ends with ETX and has the payload's length plus checksum, delimiters and one byte per escape |
| DIProtocol.XorFold | lib/mb/eq_loader/di_protocol.rb:65 | `reduce(&:^)` folds from the left; folding from the front gives the same checksum byte |
| DIProtocol.XorFoldAppend | lib/mb/eq_loader/di_protocol.rb:65 | the XOR fold of a sequence extended by one byte is the old fold XOR that byte |
| DIProtocol.ChecksumCancels | lib/mb/eq_loader/di_protocol.rb:65-66 | a payload followed by its checksum XORs to zero |
| DIProtocol.ChecksumDetermined | lib/mb/eq_loader/di_protocol.rb:65-66 | in a body whose XOR is zero, the last byte is the checksum of the bytes before it |
| DIProtocol.EscapeUnreservedIsIdentity | lib/mb/eq_loader/di_protocol.rb:67 | the substitution leaves a payload without reserved bytes unchanged |
| DIProtocol.EscapeAppend | lib/mb/eq_loader/di_protocol.rb:67 | the substitution works byte by byte: escaping a concatenation is the concatenation of the escapes |
| DIProtocol.EscapedIsClean | lib/mb/eq_loader/di_protocol.rb:67 | after escaping, no STX, ETX, ACK or NAK remains, and every ESC is followed by a byte with the top bit set |
| DIProtocol.UnescapeEscape | lib/mb/eq_loader/di_protocol.rb:67 | unescaping an escaped payload gives it back |
| DIProtocol.EscapeUnescape | lib/mb/eq_loader/di_protocol.rb:67 | every well-formed escaped text is the escape of what it unescapes to, so the escape is canonical |
| DIProtocol.FrameDelimitersUnique | lib/mb/eq_loader/di_protocol.rb:62-70 | STX and ETX occur in a frame only as its first and last byte |
| DIProtocol.SerializeDecode | lib/mb/eq_loader/di_protocol.rb:62-70 | decoding the frame of a non-empty payload gives that payload back (delimiters, escaping and checksum all check) |
| DIProtocol.DecodeSerialize | lib/mb/eq_loader/di_protocol.rb:62-70 | any frame that decodes is exactly the serialization of the payload it decodes to |
| DIProtocol.SetSv | lib/mb/eq_loader/di_protocol.rb:27-37 | `set_sv` always yields a frame of at least 16 bytes delimited by STX and ETX |
| DIProtocol.SetSvDecodes | lib/mb/eq_loader/di_protocol.rb:27-37 | `set_sv` never raises, and its frame decodes to a 13-byte Set (0x88) payload carrying the packed address, the SV mod 2^16 and the value mod 2^32 |
| Bytes.BigEndian | lib/mb/eq_loader/di_protocol.rb:47-50 | packing into `width` bytes gives exactly `width` bytes |
| Bytes.FromBigEndianOfBigEndian | lib/mb/eq_loader/di_protocol.rb:47-50 | reading back a big-endian packing gives the integer modulo 256^width (negative values wrap as two's complement) |
| Bytes.BigEndianOfFromBigEndian | lib/mb/eq_loader/di_protocol.rb:47-50 | packing the value of a byte sequence gives the same sequence, so the packing is one-to-one on its range |
| Bytes.BigEndianMod | lib/mb/eq_loader/di_protocol.rb:47-50 | packing depends only on the integer modulo 256^width |
| Bytes.BigEndianSplit | lib/mb/eq_loader/di_protocol.rb:48 | an (h+l)-byte packing is the h-byte packing of the high part followed by the l-byte packing, which is why `pack('Q>')[-6..]` is the 48-bit packing |
| Values.Binary | lib/mb/eq_loader/value_types.rb:8-11 | the result is 0 or 1, and 1 exactly when the value is truthy (neither nil nor false) |
| Values.Truncate | lib/mb/eq_loader/peq.rb:143-144 | `Float#to_i` rounds toward zero, on both sides of zero |
| Values.ToI | lib/mb/eq_loader/peq.rb:143-144 | `to_i` keeps an integer, truncates a float, turns nil into 0, and raises NoMethodError for booleans and symbols |
| Values.Log | lib/mb/eq_loader/value_types.rb:31-34 | `log` succeeds exactly for a positive integer or float; zero, negatives and non-numbers raise |
| Values.Scalar | lib/mb/eq_loader/value_types.rb:37-40 | `scalar` succeeds exactly for integers and floats, and an integer gives exactly `value * 10000` |
| ParametricEq.SvId | lib/mb/eq_loader/peq.rb:124-128 | a band-scoped SV lies in its band's block of 16 SVs, `(band - 1) * 16` up to `band * 16` |
| ParametricEq.SvIdDecomposes | lib/mb/eq_loader/peq.rb:124-128 | a band-scoped SV splits back into band - 1 (quotient by 16) and the parameter's SVID offset (remainder) |
| ParametricEq.SvIdInjective | lib/mb/eq_loader/peq.rb:124-128 | no two band-scoped (band, parameter) pairs share an SV |
| ParametricEq.SvIdBelowBypassAll | lib/mb/eq_loader/peq.rb:6-15 | for bands 1 to 32 every band-scoped SV is below the global bypass SV 512 |
| ParametricEq.SvIdReachesBypassAll | lib/mb/eq_loader/peq.rb:126-128 | `sv_id` does not bound the band: a band-scoped SV equals the global bypass SV 512 exactly for band 33's bypass |
| ParametricEq.ResolveType | lib/mb/eq_loader/peq.rb:75-78 | a symbol is looked up in TYPES and raises KeyError if absent; any other value passes through unchanged |
| ParametricEq.ResolveSlope | lib/mb/eq_loader/peq.rb:85-88 | one clause per kind of value: an integer of at least 6 goes through SLOPES (KeyError if absent) and a smaller one passes; a float of at least 6.0 raises KeyError (6.0 is not a key) and a smaller one passes; a symbol raises ArgumentError; nil and booleans raise NoMethodError |
| ParametricEq.SetTypeResolution | lib/mb/eq_loader/peq.rb:17-23 | bell and peak give 0, low_shelf 1, high_shelf 2; any other symbol raises KeyError; non-symbols pass through |
| ParametricEq.SetSlopeResolution | lib/mb/eq_loader/peq.rb:80-88 | integer slopes of at least 6 succeed exactly for 6, 9, 12 and 15, which become codes 0 to 3; integers below 6 are codes already |
| ParametricEq.ConvertValue | lib/mb/eq_loader/peq.rb:130-149 | the exception each conversion raises: bypass never fails; frequency raises TypeError for a non-number and a domain error for zero or negatives; boost and width raise NoMethodError for a non-number; type and slope raise NoMethodError for booleans and symbols; any other parameter raises "Invalid parameter" |
| ParametricEq.ConvertValueDispatch | lib/mb/eq_loader/peq.rb:132-149 | bypass uses binary, frequency log, boost and width scalar, type and slope `to_i`, and any other parameter raises; states exactly which values each accepts |
| ParametricEq.Peq.constructor | lib/mb/eq_loader/peq.rb:33-41 | stores node, object and io; the virtual device is always 3; nothing has been written |
| ParametricEq.Peq.CreateSet | lib/mb/eq_loader/peq.rb:112-122 | succeeds exactly for the global bypass or for a band-scoped parameter with a band and a convertible value; a nil band raises NoMethodError, and a conversion error propagates |
| ParametricEq.Peq.CreateSetDecodes | lib/mb/eq_loader/peq.rb:112-122 | every message created is a Set to this object's node, virtual device 3 and object, carrying the target SV and the converted value |
| ParametricEq.Peq.BypassAllTargetsSv512 | lib/mb/eq_loader/peq.rb:43-46 | the global bypass ignores the band, targets SV 512 and sends 0 or 1 |
| ParametricEq.Peq.SetterMessageIsSetSv | lib/mb/eq_loader/peq.rb:43-88 | every public setter either raises or sends `set_sv` with this object's address, the parameter's SV on the band (512 for the global bypass) and the resolved, converted value; with a nil band a band-scoped setter raises the lookup's exception, or else NoMethodError from `nil - 1` |
| ParametricEq.Peq.SetterSucceeds | lib/mb/eq_loader/peq.rb:48-88 | a band-scoped setter that succeeds was given a band, and sent the band's SV for the parameter and the converted value |
| ParametricEq.Peq.SetterSucceedsOn | lib/mb/eq_loader/peq.rb:104-122 | a band-scoped setter succeeds when it has a band, its lookup resolves the value and the resolved value converts |
| ParametricEq.Peq.BandStep | lib/mb/eq_loader/peq.rb:91-100 | call `i` of `set_band`, when it returns, had a band and sends the SV of the `i`-th parameter in the order bypass, type, frequency, gain, width, slope |
| ParametricEq.Peq.SetBandOrder | lib/mb/eq_loader/peq.rb:91-100 | a `set_band` that returns was given a band and gives six messages for the band's bypass, type, frequency, gain, width and slope SVs, in that order, with the converted values |
| ParametricEq.Peq.BandSucceeds | lib/mb/eq_loader/peq.rb:91-100 | `set_band` returns six messages when it has a band, the type and slope lookups resolve and every value converts |
| ParametricEq.Peq.SpecBandSucceeds | spec/lib/mb/eq_loader/peq_spec.rb:9-15 | band 3 with bypass false, 500 Hz, 3 dB, width 0.25, type bell and slope 0 returns six messages |
| ParametricEq.SpecSetBand | spec/lib/mb/eq_loader/peq_spec.rb:1-15 | a PEQ at node 0x1000, object 0x100 with an io, given that `set_band` call, returns six messages and writes exactly those six |
| ParametricEq.Peq.Set | lib/mb/eq_loader/peq.rb:104-110 | returns the created message, and writes it to the io exactly when there is an io and creation did not raise |
| ParametricEq.Peq.SetBypassAll | lib/mb/eq_loader/peq.rb:43-46 | the global bypass never raises, and its message is written when there is an io |
| ParametricEq.Peq.SetBypass | lib/mb/eq_loader/peq.rb:48-52 | a band bypass raises exactly when the band is nil (any value is truthy or not), and its message is written when there is an io and it did not raise |
| ParametricEq.Peq.SetFrequency | lib/mb/eq_loader/peq.rb:54-57 | sends the band's frequency SV with the log-converted value, and writes it only if no exception occurred |
| ParametricEq.Peq.SetGain | lib/mb/eq_loader/peq.rb:59-63 | sends the band's boost SV with the scalar-converted gain, and writes it only if no exception occurred |
| ParametricEq.Peq.SetWidth | lib/mb/eq_loader/peq.rb:65-69 | sends the band's width SV with the scalar-converted width, and writes it only if no exception occurred |
| ParametricEq.Peq.SetType | lib/mb/eq_loader/peq.rb:71-78 | resolves a symbolic type through TYPES, then sends the band's type SV; an unknown symbol raises before anything is written |
| ParametricEq.Peq.SetSlope | lib/mb/eq_loader/peq.rb:80-88 | resolves a dB/octave slope through SLOPES, then sends the band's slope SV; an unknown slope raises before anything is written |
| ParametricEq.Peq.SetBand | lib/mb/eq_loader/peq.rb:90-100 | runs the six setters in order: it returns their six messages, or raises the first exception; the messages of the calls before that exception stay written; a successful call returns exactly six messages, and with an io those six are what was written |

## Left out

- Float arithmetic: Ruby floats are modelled as reals. `Math.log10(x) * 1000000` and `x * 10000` followed by `round` on a float are the `Units` parameters `log` and `scalar` given to the constructor, because the IEEE rounding of a logarithm cannot be stated exactly here.
- Values.Scalar: only the integer case is stated exactly (`value * 10000`); a float result is whatever `Units.scalar` gives.
- Values.Log: the value of a successful conversion is whatever `Units.log` gives; only when it succeeds is stated.
- The io: `@io&.write(msg)` is modelled by `hasIo` and the ghost log `written`; what the io does with the bytes (TCP or serial, short writes, its exceptions) is outside the model.
- Strings are byte sequences: Ruby string encodings and `gsub` on a string with a non-binary encoding are not modelled.
- The band is an integer or nil (`Option<int>`), for `create_set`, `set` and every public setter. A float band would make `sv_id` a float that `pack('S>')` truncates, and this is not modelled.
- `Value` has no String case. Ruby strings reach the setters' conversions with their own behaviour (`"bell".to_i` is 0, `Math.log10("500")` raises TypeError, `"3" * 10000` repeats the string, which has no `round`, so `scalar` raises NoMethodError); none of this is modelled.
- DIProtocol.AssemblePayload and DIProtocol.SetSv take an integer `value` and, when given, an integer `sv`. Not modelled: a nil SV passed to `set_sv` (which raises "SV ID is required"), a nil value (which `pack('L>')` rejects with a TypeError), and a Float SV or value (which `pack` truncates toward zero). The EQ controller never produces any of these: its SVs and converted values are integers.
- ValueTypes.delay and ValueTypes.gain are not used by the parametric EQ and are not modelled, and neither are the `boolean` and `freq` aliases.
- `set_boost` and `set_bandwidth` are aliases of `set_gain` and `set_width`; they are covered by `SetGain` and `SetWidth` and have no members of their own.
- The bit operations of `pack_address` (`&`, `<<`, `|`) are stated with `%`, `*` and `+`. The three masked fields do not overlap, so `|` equals `+`.
- Any other repository code (the command-line loader, file parsing) is not part of this model.
