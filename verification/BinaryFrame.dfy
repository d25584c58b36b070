/**
 The binary frame that carries an encrypted update: a 4-byte big-endian header length, the
 header as JSON text, and the ciphertext.
 */
module BinaryFrame {
  import opened Basics
  import opened Encoding
  import opened FlatJson
  import Base64

  const HEADER_MAX_BYTES: nat := 4096
  const NONCE_BYTES: nat := 24
  const MAX_SAFE_INTEGER: nat := 9007199254740991

  datatype Header = Header(
    kind: string, updateId: string, noteId: string, sectionId: string, cryptoOwnerId: string, expectedKeyEpoch: nat,
    nonce: string, cipherLength: nat, originClientId: Option<string>, checkpointSequenceCutoff: Option<nat>,
    serverSequence: Option<nat>)

  // ----- the fields of a record -----

  predicate IsHex(c: char) { '0' <= c <= '9' || 'a' <= c <= 'f' || 'A' <= c <= 'F' }

  /** Versions one to five, either case. */
  predicate IsUuid(s: string) {
    && |s| == 36
    && (forall i :: 0 <= i < 36 ==> if i == 8 || i == 13 || i == 18 || i == 23 then s[i] == '-' else IsHex(s[i]))
    && '1' <= s[14] <= '5'
    && s[19] in "89abAB"
  }

  predicate IsSectionId(s: string) { s == "root" || IsUuid(s) }

  predicate IsKind(s: string) { s == "update" || s == "checkpoint" || s == "root-update" }

  predicate Positive(n: nat) { 0 < n <= MAX_SAFE_INTEGER }

  predicate IsNonce(s: string) {
    Base64.FromCanonical(s).Some? && |Base64.FromCanonical(s).value| == NONCE_BYTES
  }

  /** What validateBinaryHeader accepts. */
  predicate Valid(h: Header) {
    && IsKind(h.kind) && IsUuid(h.updateId) && IsUuid(h.noteId) && IsSectionId(h.sectionId) && IsUuid(h.cryptoOwnerId)
    && Positive(h.expectedKeyEpoch) && Positive(h.cipherLength)
    && (h.originClientId.Some? ==> IsUuid(h.originClientId.value))
    && (h.checkpointSequenceCutoff.Some? ==> h.checkpointSequenceCutoff.value <= MAX_SAFE_INTEGER)
    && (h.serverSequence.Some? ==> Positive(h.serverSequence.value))
    && IsNonce(h.nonce)
  }

  /** A property of a record: of several members with one name, the last counts. */
  function Get(record: seq<Member>, name: string): Option<Json> {
    if record == [] then None
    else if record[|record| - 1].name == name then Some(record[|record| - 1].value)
    else Get(record[..|record| - 1], name)
  }

  function TextOf(v: Option<Json>): Option<string> { if v.Some? && v.value.Text? then Some(v.value.text) else None }

  function NumberOf(v: Option<Json>): Option<nat> { if v.Some? && v.value.Number? then Some(v.value.number) else None }

  /** The record's fields as a header, when all have the right type. */
  function HeaderOf(record: seq<Member>): Option<Header> {
    var kind, updateId, noteId := TextOf(Get(record, "kind")), TextOf(Get(record, "updateId")), TextOf(Get(record, "noteId"));
    var sectionId, owner, nonce := TextOf(Get(record, "sectionId")), TextOf(Get(record, "cryptoOwnerId")), TextOf(Get(record, "nonce"));
    var epoch, length := NumberOf(Get(record, "expectedKeyEpoch")), NumberOf(Get(record, "cipherLength"));
    var origin, cutoff, sequence := Get(record, "originClientId"), Get(record, "checkpointSequenceCutoff"), Get(record, "serverSequence");
    if Get(record, "type") != Some(Text("crdt-binary")) || Get(record, "formatVersion") != Some(Number(2)) then None
    else if kind.None? || updateId.None? || noteId.None? || sectionId.None? || owner.None? || nonce.None? || epoch.None? || length.None? then None
    else if (origin.Some? && TextOf(origin).None?) || (cutoff.Some? && NumberOf(cutoff).None?) || (sequence.Some? && NumberOf(sequence).None?) then None
    else Some(Header(kind.value, updateId.value, noteId.value, sectionId.value, owner.value, epoch.value, nonce.value, length.value,
                     TextOf(origin), NumberOf(cutoff), NumberOf(sequence)))
  }

  /** validateBinaryHeader. */
  function ValidateBinaryHeader(record: seq<Member>): (h: Option<Header>)
    ensures h.Some? ==> Valid(h.value)
  {
    var header := HeaderOf(record);
    if header.Some? && Valid(header.value) then header else None
  }

  function OptionalText(name: string, v: Option<string>): seq<Member> { if v.Some? then [Member(name, Text(v.value))] else [] }

  function OptionalNumber(name: string, v: Option<nat>): seq<Member> { if v.Some? then [Member(name, Number(v.value))] else [] }

  /** The properties in the order the validator assigns them. */
  function MembersOf(h: Header): (members: seq<Member>)
    ensures members != []
  {
    Required(h)
    + OptionalText("originClientId", h.originClientId)
    + OptionalNumber("checkpointSequenceCutoff", h.checkpointSequenceCutoff)
    + OptionalNumber("serverSequence", h.serverSequence)
  }

  function Required(h: Header): (members: seq<Member>)
    ensures |members| == 10
  {
    [Member("type", Text("crdt-binary")), Member("kind", Text(h.kind)), Member("formatVersion", Number(2)),
     Member("updateId", Text(h.updateId)), Member("noteId", Text(h.noteId)), Member("sectionId", Text(h.sectionId)),
     Member("cryptoOwnerId", Text(h.cryptoOwnerId)), Member("expectedKeyEpoch", Number(h.expectedKeyEpoch)),
     Member("nonce", Text(h.nonce)), Member("cipherLength", Number(h.cipherLength))]
  }

  // ----- the frame -----

  /** setUint32, most significant byte first. */
  function UInt32(n: nat): (b: Bytes)
    requires n < 0x1_0000_0000
    ensures |b| == 4
    ensures n == b[0] as int * 16_777_216 + b[1] as int * 65_536 + b[2] as int * 256 + b[3] as int
  {
    var high, middle, low := n / 0x100 / 0x100 / 0x100, n / 0x100 / 0x100, n / 0x100;
    [high as Byte, (middle % 0x100) as Byte, (low % 0x100) as Byte, (n % 0x100) as Byte]
  }

  function ReadUInt32(b: Bytes): nat
    requires |b| >= 4
  {
    ((b[0] as nat * 0x100 + b[1] as nat) * 0x100 + b[2] as nat) * 0x100 + b[3] as nat
  }

  lemma UInt32RoundTrip(n: nat, rest: Bytes)
    requires n < 0x1_0000_0000
    ensures ReadUInt32(UInt32(n) + rest) == n
  {
    var high, middle, low := n / 0x100 / 0x100 / 0x100, n / 0x100 / 0x100, n / 0x100;
    assert middle == high * 0x100 + middle % 0x100;
    assert low == middle * 0x100 + low % 0x100;
    assert n == low * 0x100 + n % 0x100;
    var b := UInt32(n);
    assert (b + rest)[0] == b[0] && (b + rest)[1] == b[1] && (b + rest)[2] == b[2] && (b + rest)[3] == b[3];
  }

  predicate LimitValid(maxFrameBytes: int) { 4 < maxFrameBytes <= MAX_SAFE_INTEGER }

  /** The text of a valid header is plain ASCII, so one byte a character. */
  function HeaderBytes(h: Header): (b: Bytes)
    requires Valid(h)
  {
    HeaderIsPlain(h);
    RenderedIsAscii(MembersOf(h));
    Utf8(Render(MembersOf(h)))
  }

  predicate Encodable(record: seq<Member>, cipher: Bytes, maxFrameBytes: int) {
    && LimitValid(maxFrameBytes)
    && ValidateBinaryHeader(record).Some?
    && var h := ValidateBinaryHeader(record).value;
       && h.cipherLength == |cipher|
       && |HeaderBytes(h)| <= HEADER_MAX_BYTES
       && 4 + |HeaderBytes(h)| + |cipher| <= maxFrameBytes
  }

  /** encodeCrdtBinaryFrame fills one buffer: length, header, ciphertext. */
  method EncodeCrdtBinaryFrame(record: seq<Member>, cipher: Bytes, maxFrameBytes: int) returns (result: Result<Bytes>)
    ensures result.Ok? <==> Encodable(record, cipher, maxFrameBytes)
    ensures result.Ok? ==>
      var headerBytes := HeaderBytes(ValidateBinaryHeader(record).value);
      && result.value == UInt32(|headerBytes|) + headerBytes + cipher && |result.value| <= maxFrameBytes
      && |headerBytes| == result.value[0] as int * 16_777_216 + result.value[1] as int * 65_536 + result.value[2] as int * 256
                          + result.value[3] as int
  {
    hide ValidateBinaryHeader, UInt32, HeaderBytes, Valid;
    if !LimitValid(maxFrameBytes) {
      return Err("Invalid CRDT binary frame limit");
    }
    var validated := ValidateBinaryHeader(record);
    if validated.None? {
      return Err("Invalid CRDT binary header");
    }
    if validated.value.cipherLength != |cipher| {
      return Err("CRDT binary cipher length mismatch");
    }
    var headerBytes := HeaderBytes(validated.value);
    if |headerBytes| == 0 || |headerBytes| > HEADER_MAX_BYTES {
      NotEmpty(validated.value);
      return Err("CRDT binary header exceeds limit");
    }
    var frameLength := 4 + |headerBytes| + |cipher|;
    if frameLength > maxFrameBytes {
      return Err("CRDT binary frame limit exceeded");
    }
    var frame := Assemble(headerBytes, cipher);
    return Ok(frame);
  }

  method Assemble(headerBytes: Bytes, cipher: Bytes) returns (result: Bytes)
    requires |headerBytes| <= HEADER_MAX_BYTES
    ensures result == UInt32(|headerBytes|) + headerBytes + cipher
  {
    hide UInt32;
    var frameLength := 4 + |headerBytes| + |cipher|;
    var frame := new Byte[frameLength](_ => 0);
    SetAt(frame, 0, UInt32(|headerBytes|));
    SetAt(frame, 4, headerBytes);
    SetAt(frame, 4 + |headerBytes|, cipher);
    assert frame[..] == frame[..frameLength];
    return frame[..];
  }

  method SetAt(buffer: array<Byte>, offset: nat, bytes: Bytes)
    requires offset + |bytes| <= buffer.Length
    modifies buffer
    ensures buffer[..offset + |bytes|] == old(buffer[..offset]) + bytes
  {
    forall i | 0 <= i < |bytes| {
      buffer[offset + i] := bytes[i];
    }
  }

  function Characters(bytes: Bytes): Option<string> {
    if forall i :: 0 <= i < |bytes| ==> bytes[i] < 128
    then Some(seq(|bytes|, i requires 0 <= i < |bytes| => (bytes[i] as int) as char)) else None
  }

  function ParseHeader(bytes: Bytes): Option<Header> {
    var text := Characters(bytes);
    if text.None? then None
    else
      var record := Parse(text.value);
      if record.None? then None else ValidateBinaryHeader(record.value)
  }

  predicate LengthOk(frame: Bytes) {
    |frame| >= 5 && 0 < ReadUInt32(frame) <= HEADER_MAX_BYTES && 4 + ReadUInt32(frame) < |frame|
  }

  /** Which frames are accepted, and what they carry. */
  function Decoded(frame: Bytes, maxFrameBytes: int): Option<(Header, Bytes)> {
    if !LimitValid(maxFrameBytes) || |frame| > maxFrameBytes || !LengthOk(frame) then None
    else
      var headerLength := ReadUInt32(frame);
      var header := ParseHeader(frame[4..4 + headerLength]);
      var cipher := frame[4 + headerLength..];
      if header.None? || |cipher| != header.value.cipherLength then None else Some((header.value, cipher))
  }

  /** Within the limit, a length of one to 4096 that leaves room for a ciphertext, then that header and that ciphertext. */
  predicate FrameHolds(frame: Bytes, maxFrameBytes: int, h: Header, cipher: Bytes) {
    && 4 < maxFrameBytes <= 9_007_199_254_740_991 && 5 <= |frame| <= maxFrameBytes
    && var n := frame[0] as int * 16_777_216 + frame[1] as int * 65_536 + frame[2] as int * 256 + frame[3] as int;
    && 1 <= n <= 4096 && 4 + n < |frame| && ParseHeader(frame[4..4 + n]) == Some(h)
    && cipher == frame[4 + n..] && h.cipherLength == |cipher|
  }

  lemma DecodedIff(frame: Bytes, maxFrameBytes: int, h: Header, cipher: Bytes)
    ensures Decoded(frame, maxFrameBytes) == Some((h, cipher)) <==> FrameHolds(frame, maxFrameBytes, h, cipher)
  {
    hide ParseHeader;
  }

  method DecodeCrdtBinaryFrame(frame: Bytes, maxFrameBytes: int) returns (result: Result<(Header, Bytes)>)
    ensures result.Ok? <==> Decoded(frame, maxFrameBytes).Some?
    ensures result.Ok? ==> result.value == Decoded(frame, maxFrameBytes).value
    ensures result.Ok? ==> Valid(result.value.0) && |result.value.1| == result.value.0.cipherLength
    ensures result.Ok? ==> FrameHolds(frame, maxFrameBytes, result.value.0, result.value.1)
    ensures result.Err? ==> forall h, cipher :: !FrameHolds(frame, maxFrameBytes, h, cipher)
  {
    hide ParseHeader, Valid, FrameHolds;
    forall h, cipher ensures Decoded(frame, maxFrameBytes) == Some((h, cipher)) <==> FrameHolds(frame, maxFrameBytes, h, cipher) {
      DecodedIff(frame, maxFrameBytes, h, cipher);
    }
    if !LimitValid(maxFrameBytes) {
      return Err("Invalid CRDT binary frame limit");
    }
    if |frame| > maxFrameBytes {
      return Err("CRDT binary frame limit exceeded");
    }
    if |frame| < 5 {
      return Err("Invalid CRDT binary header");
    }
    var headerLength := ReadUInt32(frame);
    if headerLength == 0 || headerLength > HEADER_MAX_BYTES || 4 + headerLength >= |frame| {
      return Err("Invalid CRDT binary header");
    }
    var header := ParseHeader(frame[4..4 + headerLength]);
    if header.None? {
      return Err("Invalid CRDT binary header");
    }
    var cipher := frame[4 + headerLength..];
    if |cipher| != header.value.cipherLength {
      return Err("CRDT binary cipher length mismatch");
    }
    ParsedIsValid(frame[4..4 + headerLength]);
    return Ok((header.value, cipher));
  }

  lemma ParsedIsValid(bytes: Bytes)
    ensures ParseHeader(bytes).Some? ==> Valid(ParseHeader(bytes).value)
  {
    hide Valid, HeaderOf, Parse, Characters;
  }

  // ----- valid headers render plainly -----

  lemma UuidIsPlain(s: string)
    requires IsUuid(s)
    ensures Plain(s)
  {
  }

  lemma NonceIsPlain(s: string)
    requires IsNonce(s)
    ensures Plain(s)
  {
    var bytes := Base64.FromCanonical(s).value;
    Base64.CanonicalIffEncoding(s, bytes);
    assert Base64.IsBase64Text(s);
  }

  lemma SectionIsPlain(s: string)
    requires IsSectionId(s) || IsKind(s)
    ensures Plain(s)
  {
    if IsUuid(s) {
      UuidIsPlain(s);
    }
  }

  lemma FirstNamesArePlain()
    ensures Plain("type") && Plain("kind") && Plain("formatVersion") && Plain("updateId") && Plain("noteId")
  {
  }

  lemma MiddleNamesArePlain()
    ensures Plain("sectionId") && Plain("cryptoOwnerId") && Plain("expectedKeyEpoch")
  {
  }

  lemma LastNamesArePlain()
    ensures Plain("nonce") && Plain("cipherLength") && Plain("originClientId") && Plain("crdt-binary")
  {
  }

  lemma OptionalNamesArePlain()
    ensures Plain("checkpointSequenceCutoff") && Plain("serverSequence")
  {
  }

  lemma HeaderIsPlain(h: Header)
    requires Valid(h)
    ensures forall i :: 0 <= i < |MembersOf(h)| ==> PlainMember(MembersOf(h)[i])
  {
    hide Plain, IsUuid, IsSectionId, IsKind, IsNonce;
    FirstNamesArePlain();
    MiddleNamesArePlain();
    LastNamesArePlain();
    OptionalNamesArePlain();
    UuidIsPlain(h.updateId);
    UuidIsPlain(h.noteId);
    UuidIsPlain(h.cryptoOwnerId);
    SectionIsPlain(h.sectionId);
    SectionIsPlain(h.kind);
    NonceIsPlain(h.nonce);
    if h.originClientId.Some? {
      UuidIsPlain(h.originClientId.value);
    }
    forall i | 0 <= i < |Required(h)| ensures PlainMember(Required(h)[i]) {
    }
  }

  lemma NotEmpty(h: Header)
    requires Valid(h)
    ensures HeaderBytes(h) != []
  {
    hide Valid;
    assert Render(MembersOf(h))[0] == '{';
  }

  // ----- looking fields up again -----

  lemma {:induction false} GetAppend(record: seq<Member>, more: seq<Member>, name: string)
    ensures Get(record + more, name) == if Get(more, name).Some? then Get(more, name) else Get(record, name)
  {
    if more == [] {
      assert record + more == record;
    } else {
      var all := record + more;
      assert all[..|all| - 1] == record + more[..|more| - 1];
      GetAppend(record, more[..|more| - 1], name);
    }
  }

  lemma {:induction false} GetThere(record: seq<Member>, i: nat)
    requires i < |record| && forall j :: i < j < |record| ==> record[j].name != record[i].name
    ensures Get(record, record[i].name) == Some(record[i].value)
  {
    if i < |record| - 1 {
      GetThere(record[..|record| - 1], i);
    }
  }

  lemma {:induction false} GetMissing(record: seq<Member>, name: string)
    requires forall j :: 0 <= j < |record| ==> record[j].name != name
    ensures Get(record, name) == None
  {
    if record != [] {
      GetMissing(record[..|record| - 1], name);
    }
  }

  /** Length and first letter tell the property names apart. */
  function Code(name: string): int { if name == "" then 0 else |name| * 1000 + name[0] as int }

  const CODES: seq<int> := [4116, 4107, 13102, 8117, 6110, 9115, 13099, 16101, 5110, 12099]

  lemma CodesDiffer(i: nat, j: nat)
    requires i < j < 10
    ensures CODES[i] != CODES[j]
  {
  }

  lemma RequiredCodes(h: Header, i: nat)
    requires i < 10
    ensures Code(Required(h)[i].name) == CODES[i]
  {
    FirstCodes();
    LastCodes();
  }

  lemma FirstCodes()
    ensures Code("type") == 4116 && Code("kind") == 4107 && Code("formatVersion") == 13102 && Code("updateId") == 8117 && Code("noteId") == 6110
  {
  }

  lemma LastCodes()
    ensures Code("sectionId") == 9115 && Code("cryptoOwnerId") == 13099 && Code("expectedKeyEpoch") == 16101
    ensures Code("nonce") == 5110 && Code("cipherLength") == 12099
  {
  }

  lemma OptionalCodes()
    ensures Code("originClientId") == 14111 && Code("checkpointSequenceCutoff") == 24099 && Code("serverSequence") == 14115
  {
  }

  lemma GetFromRequired(h: Header, i: nat)
    requires i < 10
    ensures Get(Required(h), Required(h)[i].name) == Some(Required(h)[i].value)
  {
    hide Code;
    RequiredCodes(h, i);
    forall j: nat | i < j < 10 ensures Required(h)[j].name != Required(h)[i].name {
      RequiredCodes(h, j);
      CodesDiffer(i, j);
    }
    GetThere(Required(h), i);
  }

  predicate IsOptional(name: string) { name == "originClientId" || name == "checkpointSequenceCutoff" || name == "serverSequence" }

  lemma RequiredIsNotOptional(h: Header, i: nat, name: string)
    requires i < 10 && IsOptional(name)
    ensures Required(h)[i].name != name
  {
    hide Code, Required;
    RequiredCodes(h, i);
    OptionalCodes();
  }

  lemma GetFromOptional(name: string, text: Option<string>, number: Option<nat>, other: string)
    ensures Get(OptionalText(name, text), other) == if name == other && text.Some? then Some(Text(text.value)) else None
    ensures Get(OptionalNumber(name, number), other) == if name == other && number.Some? then Some(Number(number.value)) else None
  {
    if text.Some? {
      assert OptionalText(name, text)[..0] == [];
    }
    if number.Some? {
      assert OptionalNumber(name, number)[..0] == [];
    }
  }

  /** A lookup in all members, optional ones last. */
  lemma GetMember(h: Header, name: string)
    ensures Get(MembersOf(h), name) ==
      if name == "serverSequence" && h.serverSequence.Some? then Some(Number(h.serverSequence.value))
      else if name == "checkpointSequenceCutoff" && h.checkpointSequenceCutoff.Some? then Some(Number(h.checkpointSequenceCutoff.value))
      else if name == "originClientId" && h.originClientId.Some? then Some(Text(h.originClientId.value))
      else Get(Required(h), name)
  {
    hide Get, Required, OptionalText, OptionalNumber;
    var origin := OptionalText("originClientId", h.originClientId);
    var cutoff := OptionalNumber("checkpointSequenceCutoff", h.checkpointSequenceCutoff);
    var sequence := OptionalNumber("serverSequence", h.serverSequence);
    GetAppend(Required(h) + origin + cutoff, sequence, name);
    GetAppend(Required(h) + origin, cutoff, name);
    GetAppend(Required(h), origin, name);
    GetFromOptional("originClientId", h.originClientId, None, name);
    GetFromOptional("checkpointSequenceCutoff", None, h.checkpointSequenceCutoff, name);
    GetFromOptional("serverSequence", None, h.serverSequence, name);
  }

  lemma GetRequired(h: Header, i: nat)
    requires i < 10
    ensures Get(MembersOf(h), Required(h)[i].name) == Some(Required(h)[i].value)
  {
    hide Get, MembersOf, Required;
    GetMember(h, Required(h)[i].name);
    GetFromRequired(h, i);
    RequiredIsNotOptional(h, i, "serverSequence");
    RequiredIsNotOptional(h, i, "checkpointSequenceCutoff");
    RequiredIsNotOptional(h, i, "originClientId");
  }

  lemma NamesDiffer()
    ensures "originClientId" != "checkpointSequenceCutoff" && "originClientId" != "serverSequence" && "checkpointSequenceCutoff" != "serverSequence"
  {
    hide Code;
    OptionalCodes();
  }

  lemma GetOptional(h: Header)
    ensures Get(MembersOf(h), "originClientId") == if h.originClientId.Some? then Some(Text(h.originClientId.value)) else None
    ensures Get(MembersOf(h), "checkpointSequenceCutoff") == if h.checkpointSequenceCutoff.Some? then Some(Number(h.checkpointSequenceCutoff.value)) else None
    ensures Get(MembersOf(h), "serverSequence") == if h.serverSequence.Some? then Some(Number(h.serverSequence.value)) else None
  {
    hide Get, MembersOf;
    NamesDiffer();
    OptionalNotRequired(h, "originClientId");
    OptionalNotRequired(h, "checkpointSequenceCutoff");
    OptionalNotRequired(h, "serverSequence");
    GetMember(h, "originClientId");
    GetMember(h, "checkpointSequenceCutoff");
    GetMember(h, "serverSequence");
  }

  lemma OptionalNotRequired(h: Header, name: string)
    requires IsOptional(name)
    ensures Get(Required(h), name) == None
  {
    forall j: nat | j < |Required(h)| ensures Required(h)[j].name != name {
      RequiredIsNotOptional(h, j, name);
    }
    GetMissing(Required(h), name);
  }

  predicate AgreesOn(a: seq<Member>, b: seq<Member>, name: string) { Get(a, name) == Get(b, name) }

  /** Two records with the same properties of a header, whatever else they hold and in whatever order. */
  predicate SameFields(a: seq<Member>, b: seq<Member>) {
    && AgreesOn(a, b, "type") && AgreesOn(a, b, "kind") && AgreesOn(a, b, "formatVersion")
    && AgreesOn(a, b, "updateId") && AgreesOn(a, b, "noteId") && AgreesOn(a, b, "sectionId")
    && AgreesOn(a, b, "cryptoOwnerId") && AgreesOn(a, b, "expectedKeyEpoch") && AgreesOn(a, b, "nonce")
    && AgreesOn(a, b, "cipherLength") && AgreesOn(a, b, "originClientId")
    && AgreesOn(a, b, "checkpointSequenceCutoff") && AgreesOn(a, b, "serverSequence")
  }

  lemma FieldsDecide(a: seq<Member>, b: seq<Member>)
    requires SameFields(a, b)
    ensures ValidateBinaryHeader(a) == ValidateBinaryHeader(b)
  {
    hide Get, Valid;
  }

  /** What each of a header's members is found under. */
  lemma HeaderFields(h: Header)
    ensures HeaderOf(MembersOf(h)) == Some(h)
  {
    hide Get, MembersOf, Valid;
    GetOptional(h);
    assert Required(h)[0].name == "type" && Required(h)[1].name == "kind" && Required(h)[2].name == "formatVersion";
    GetRequired(h, 0);
    GetRequired(h, 1);
    GetRequired(h, 2);
    GetRequired(h, 3);
    GetRequired(h, 4);
    GetRequired(h, 5);
    GetRequired(h, 6);
    GetRequired(h, 7);
    GetRequired(h, 8);
    GetRequired(h, 9);
  }

  /** The validator finds in the rendered members exactly the header they came from. */
  lemma ValidateMembers(h: Header)
    requires Valid(h)
    ensures ValidateBinaryHeader(MembersOf(h)) == Some(h)
  {
    hide Get, MembersOf, Valid, HeaderOf;
    HeaderFields(h);
  }

  lemma SameHeaderSameFields(a: seq<Member>, b: seq<Member>)
    requires HeaderOf(a).Some? && HeaderOf(a) == HeaderOf(b)
    ensures SameFields(a, b)
  {
    hide Get;
  }

  /** A record is accepted as a header if and only if the header is valid and the record has exactly its members' values. */
  lemma AcceptsExactly(record: seq<Member>, h: Header)
    ensures ValidateBinaryHeader(record) == Some(h) <==> Valid(h) && SameFields(record, MembersOf(h))
  {
    hide Get, MembersOf, Valid, HeaderOf, SameFields;
    HeaderFields(h);
    if HeaderOf(record) == Some(h) {
      SameHeaderSameFields(record, MembersOf(h));
    }
    if SameFields(record, MembersOf(h)) {
      FieldsDecide(record, MembersOf(h));
    }
  }

  /** Each property of the record under its own name; the optional ones as they are there. */
  predicate FieldsSay(record: seq<Member>, h: Header) {
    && Get(record, "type") == Some(Text("crdt-binary")) && Get(record, "formatVersion") == Some(Number(2))
    && Get(record, "kind") == Some(Text(h.kind)) && Get(record, "updateId") == Some(Text(h.updateId))
    && Get(record, "noteId") == Some(Text(h.noteId)) && Get(record, "sectionId") == Some(Text(h.sectionId))
    && Get(record, "cryptoOwnerId") == Some(Text(h.cryptoOwnerId)) && Get(record, "nonce") == Some(Text(h.nonce))
    && Get(record, "expectedKeyEpoch") == Some(Number(h.expectedKeyEpoch)) && Get(record, "cipherLength") == Some(Number(h.cipherLength))
    && (match h.originClientId case Some(id) => Get(record, "originClientId") == Some(Text(id)) case None => Get(record, "originClientId") == None)
    && (match h.checkpointSequenceCutoff
        case Some(n) => Get(record, "checkpointSequenceCutoff") == Some(Number(n))
        case None => Get(record, "checkpointSequenceCutoff") == None)
    && (match h.serverSequence case Some(n) => Get(record, "serverSequence") == Some(Number(n)) case None => Get(record, "serverSequence") == None)
  }

  /** Kinds, identifiers and a canonical nonce of twenty-four bytes; counts that are safe integers, positive but for a cutoff. */
  predicate InRange(h: Header) {
    && h.kind in ["update", "checkpoint", "root-update"] && IsUuid(h.updateId) && IsUuid(h.noteId) && IsUuid(h.cryptoOwnerId)
    && (h.sectionId == "root" || IsUuid(h.sectionId)) && (h.originClientId != None ==> IsUuid(h.originClientId.value))
    && 1 <= h.expectedKeyEpoch <= 9_007_199_254_740_991 && 1 <= h.cipherLength <= 9_007_199_254_740_991
    && (h.checkpointSequenceCutoff != None ==> h.checkpointSequenceCutoff.value <= 9_007_199_254_740_991)
    && (h.serverSequence != None ==> 1 <= h.serverSequence.value <= 9_007_199_254_740_991)
    && Base64.FromCanonical(h.nonce) != None && |Base64.FromCanonical(h.nonce).value| == 24
  }

  /** A record is accepted as a header if and only if each property under its own name is that header's, and all are in range. */
  lemma AcceptsByName(record: seq<Member>, h: Header)
    ensures ValidateBinaryHeader(record) == Some(h) <==> FieldsSay(record, h) && InRange(h)
  {
    hide Get, Valid, InRange;
    RangeIsValid(h);
  }

  lemma RangeIsValid(h: Header)
    ensures Valid(h) <==> InRange(h)
  {
    hide IsUuid;
  }

  // ----- the round trip -----

  lemma CharactersUtf8(s: string)
    requires IsAscii(s)
    ensures Characters(Utf8(s)) == Some(s)
  {
    var bytes := Utf8(s);
    forall i | 0 <= i < |bytes| ensures bytes[i] < 128 && (bytes[i] as int) as char == s[i] {
      assert s[i] in s;
    }
    assert Characters(bytes).Some?;
    assert |Characters(bytes).value| == |s|;
    assert Characters(bytes).value == s;
  }

  lemma ParseHeaderBytes(h: Header)
    requires Valid(h)
    ensures ParseHeader(HeaderBytes(h)) == Some(h)
  {
    hide Valid, Characters, MembersOf, Render, Parse, RenderMembers;
    HeaderIsPlain(h);
    RenderedIsAscii(MembersOf(h));
    RenderIsAscii(h);
    CharactersUtf8(Render(MembersOf(h)));
    ParseRender(MembersOf(h));
    ValidateMembers(h);
  }

  lemma RenderIsAscii(h: Header)
    requires IsAscii(RenderMembers(MembersOf(h)))
    ensures IsAscii(Render(MembersOf(h)))
  {
    hide MembersOf, RenderMembers;
  }

  /** Cutting a frame where its length says gives the two parts back. */
  lemma FrameParts(headerBytes: Bytes, cipher: Bytes)
    requires 0 < |headerBytes| <= HEADER_MAX_BYTES
    ensures var frame := UInt32(|headerBytes|) + headerBytes + cipher;
      && |frame| == 4 + |headerBytes| + |cipher|
      && ReadUInt32(frame) == |headerBytes|
      && frame[4..4 + |headerBytes|] == headerBytes
      && frame[4 + |headerBytes|..] == cipher
  {
    hide UInt32, ReadUInt32;
    UInt32RoundTrip(|headerBytes|, headerBytes + cipher);
    assert UInt32(|headerBytes|) + headerBytes + cipher == UInt32(|headerBytes|) + (headerBytes + cipher);
  }

  /**
   For every record, ciphertext and limit the encoder accepts, the decoder with the same limit
   accepts the frame and returns exactly the validated header, optional fields included, and
   the ciphertext.
   */
  lemma FrameRoundTrip(record: seq<Member>, cipher: Bytes, maxFrameBytes: int)
    requires Encodable(record, cipher, maxFrameBytes)
    ensures var h := ValidateBinaryHeader(record).value;
      Decoded(UInt32(|HeaderBytes(h)|) + HeaderBytes(h) + cipher, maxFrameBytes) == Some((h, cipher))
  {
    hide HeaderBytes, ParseHeader, UInt32, ReadUInt32, HeaderOf;
    var h := ValidateBinaryHeader(record).value;
    NotEmpty(h);
    ParseHeaderBytes(h);
    FrameParts(HeaderBytes(h), cipher);
  }

  /** Two encodable contents with the same frame are the same. */
  lemma FramesAreUnambiguous(a: seq<Member>, b: seq<Member>, x: Bytes, y: Bytes, maxFrameBytes: int)
    requires Encodable(a, x, maxFrameBytes) && Encodable(b, y, maxFrameBytes)
    requires var h, g := ValidateBinaryHeader(a).value, ValidateBinaryHeader(b).value;
      UInt32(|HeaderBytes(h)|) + HeaderBytes(h) + x == UInt32(|HeaderBytes(g)|) + HeaderBytes(g) + y
    ensures ValidateBinaryHeader(a) == ValidateBinaryHeader(b) && x == y
  {
    hide HeaderBytes, Decoded, UInt32, HeaderOf;
    FrameRoundTrip(a, x, maxFrameBytes);
    FrameRoundTrip(b, y, maxFrameBytes);
  }
}
