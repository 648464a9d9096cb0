/** The deploy encoder, whose bytes are what gets signed, against a reader of the wire
    format: what it writes comes back, and exactly when it is the whole deploy. */
module Deploys {
  import opened Options
  import opened Varints
  import opened Utf8

  datatype DeployData = DeployData(
    term: Text,
    timestamp: int,
    phloPrice: int,
    phloLimit: int,
    validAfterBlockNumber: int,
    shardId: Text)

  // The writer

  /** Absent when it holds the default. */
  function NumberField(field: nat, value: int): seq<Byte> {
    if value == 0 then [] else Varint(field * 8) + Varint(value)
  }

  function TextField(field: nat, value: Text): seq<Byte> {
    if value == [] then [] else Varint(field * 8 + 2) + Varint(|EncodeText(value)|) + EncodeText(value)
  }

  function Encode(d: DeployData): seq<Byte> {
    TextField(2, d.term) + (NumberField(3, d.timestamp) + (NumberField(7, d.phloPrice) +
    (NumberField(8, d.phloLimit) + (NumberField(10, d.validAfterBlockNumber) + TextField(11, d.shardId)))))
  }

  /** Field by field: the key byte of the field's number and wire type, and the value or the
      length and the text; and nothing at all for a zero or an empty text. */
  lemma Layout(d: DeployData)
    ensures Encode(d) ==
            (if d.term == [] then [] else [0x12] + Varint(|EncodeText(d.term)|) + EncodeText(d.term)) +
            (if d.timestamp == 0 then [] else [0x18] + Varint(d.timestamp)) +
            (if d.phloPrice == 0 then [] else [0x38] + Varint(d.phloPrice)) +
            (if d.phloLimit == 0 then [] else [0x40] + Varint(d.phloLimit)) +
            (if d.validAfterBlockNumber == 0 then [] else [0x50] + Varint(d.validAfterBlockNumber)) +
            (if d.shardId == [] then [] else [0x5A] + Varint(|EncodeText(d.shardId)|) + EncodeText(d.shardId))
  {
    hide TextField, NumberField, EncodeText, Varint;
    TextLayout(2, 0x12, d.term);
    NumberLayout(3, 0x18, d.timestamp);
    NumberLayout(7, 0x38, d.phloPrice);
    NumberLayout(8, 0x40, d.phloLimit);
    NumberLayout(10, 0x50, d.validAfterBlockNumber);
    TextLayout(11, 0x5A, d.shardId);
    Regroup(TextField(2, d.term), NumberField(3, d.timestamp), NumberField(7, d.phloPrice), NumberField(8, d.phloLimit),
            NumberField(10, d.validAfterBlockNumber), TextField(11, d.shardId));
  }

  lemma TextLayout(field: nat, key: Byte, value: Text)
    requires key < 128 && key == field * 8 + 2
    ensures TextField(field, value) ==
            if value == [] then [] else [key] + Varint(|EncodeText(value)|) + EncodeText(value)
  {
    hide EncodeText;
    SmallKey(key);
  }

  lemma NumberLayout(field: nat, key: Byte, value: int)
    requires key < 128 && key == field * 8
    ensures NumberField(field, value) == if value == 0 then [] else [key] + Varint(value)
  {
    SmallKey(key);
  }

  lemma Regroup(a: seq<Byte>, b: seq<Byte>, c: seq<Byte>, d: seq<Byte>, e: seq<Byte>, f: seq<Byte>)
    ensures a + (b + (c + (d + (e + f)))) == a + b + c + d + e + f
  {
    assert a + (b + (c + (d + (e + f)))) == a + b + (c + (d + (e + f)));
    assert c + (d + (e + f)) == c + d + (e + f);
  }

  lemma SmallKey(n: nat)
    requires n < 128
    ensures Varint(n) == [n]
  {
  }

  method FieldVarint(field: nat, value: int) returns (out: seq<Byte>)
    ensures out == NumberField(field, value)
  {
    if value == 0 {
      return [];
    }
    var key := EncodeVarint(field * 8);
    var number := EncodeVarint(value);
    out := key + number;
  }

  method FieldString(field: nat, value: Text) returns (out: seq<Byte>)
    ensures out == TextField(field, value)
  {
    if value == [] {
      return [];
    }
    var bytes := EncodeText(value);
    var key := EncodeVarint(field * 8 + 2);
    var length := EncodeVarint(|bytes|);
    out := key + length + bytes;
  }

  method EncodeDeployData(d: DeployData) returns (out: seq<Byte>)
    ensures out == Encode(d)
    ensures Read(out) == Some(Canonical(d))
  {
    var term := FieldString(2, d.term);
    var timestamp := FieldVarint(3, d.timestamp);
    var price := FieldVarint(7, d.phloPrice);
    var limit := FieldVarint(8, d.phloLimit);
    var block := FieldVarint(10, d.validAfterBlockNumber);
    var shard := FieldString(11, d.shardId);
    out := term + (timestamp + (price + (limit + (block + shard))));
    ReadsCanonical(d);
  }

  // The reader

  datatype Payload = Number(n: nat) | Chunk(bytes: seq<Byte>)

  datatype Field = Field(tag: nat, payload: Payload)

  /** One field: a key, then by its wire type a varint or a length and that many bytes. */
  function ReadField(b: seq<Byte>): (r: Option<(Field, seq<Byte>)>)
    ensures r.Some? ==> |r.value.1| < |b|
  {
    match ReadVarint(b)
    case None => None
    case Some(Taken(key, rest)) =>
      match ReadVarint(rest)
      case None => None
      case Some(Taken(n, after)) =>
        if key % 8 == 0 then Some((Field(key / 8, Number(n)), after))
        else if key % 8 == 2 && n <= |after| then Some((Field(key / 8, Chunk(after[..n])), after[n..]))
        else None
  }

  /** A message is its fields one after another. */
  function ReadFields(b: seq<Byte>): Option<seq<Field>>
    decreases |b|
  {
    if b == [] then Some([])
    else
      match ReadField(b)
      case None => None
      case Some((f, rest)) =>
        match ReadFields(rest)
        case None => None
        case Some(fs) => Some([f] + fs)
  }

  /** The last field of the tag counts. */
  function Latest(fs: seq<Field>, tag: nat): Option<Payload> {
    if fs == [] then None
    else if fs[|fs| - 1].tag == tag then Some(fs[|fs| - 1].payload)
    else Latest(fs[..|fs| - 1], tag)
  }

  /** Zero and the empty text stand for an absent field. */
  function NumberAt(fs: seq<Field>, tag: nat): Option<nat> {
    match Latest(fs, tag)
    case None => Some(0)
    case Some(Number(n)) => Some(n)
    case Some(Chunk(_)) => None
  }

  function TextAt(fs: seq<Field>, tag: nat): Option<Text> {
    match Latest(fs, tag)
    case None => Some([])
    case Some(Number(_)) => None
    case Some(Chunk(bytes)) => DecodeText(bytes)
  }

  function Read(b: seq<Byte>): Option<DeployData> {
    match ReadFields(b)
    case None => None
    case Some(fs) =>
      match (TextAt(fs, 2), NumberAt(fs, 3), NumberAt(fs, 7), NumberAt(fs, 8), NumberAt(fs, 10), TextAt(fs, 11))
      case (Some(term), Some(timestamp), Some(price), Some(limit), Some(block), Some(shard)) =>
        Some(DeployData(term, timestamp, price, limit, block, shard))
      case _ => None
  }

  // What comes back

  function Residue(n: int): nat { if n < 0 then n % 128 else n }

  function Canonical(d: DeployData): DeployData {
    DeployData(Cleaned(d.term), Residue(d.timestamp), Residue(d.phloPrice), Residue(d.phloLimit),
      Residue(d.validAfterBlockNumber), Cleaned(d.shardId))
  }

  function NumberPart(field: nat, value: int): seq<Field> {
    if value == 0 then [] else [Field(field, Number(Residue(value)))]
  }

  function TextPart(field: nat, value: Text): seq<Field> {
    if value == [] then [] else [Field(field, Chunk(EncodeText(value)))]
  }

  function Parts(d: DeployData): seq<Field> {
    TextPart(2, d.term) + (NumberPart(3, d.timestamp) + (NumberPart(7, d.phloPrice) +
    (NumberPart(8, d.phloLimit) + (NumberPart(10, d.validAfterBlockNumber) + TextPart(11, d.shardId)))))
  }

  lemma NumberFieldReads(field: nat, value: int, rest: seq<Byte>, fs: seq<Field>)
    requires ReadFields(rest) == Some(fs)
    ensures ReadFields(NumberField(field, value) + rest) == Some(NumberPart(field, value) + fs)
  {
    hide Varint, ReadVarint;
    if value == 0 {
      assert [] + rest == rest && [] + fs == fs;
    } else {
      var b := NumberField(field, value) + rest;
      assert b == Varint(field * 8) + (Varint(value) + rest);
      ReadsBack(field * 8, Varint(value) + rest);
      ReadsBack(value, rest);
      assert ReadField(b) == Some((Field(field, Number(Residue(value))), rest));
    }
  }

  lemma TextFieldReads(field: nat, value: Text, rest: seq<Byte>, fs: seq<Field>)
    requires ReadFields(rest) == Some(fs)
    ensures ReadFields(TextField(field, value) + rest) == Some(TextPart(field, value) + fs)
  {
    hide Varint, ReadVarint, EncodeText;
    if value == [] {
      assert [] + rest == rest && [] + fs == fs;
    } else {
      var bytes, b := EncodeText(value), TextField(field, value) + rest;
      assert b == Varint(field * 8 + 2) + (Varint(|bytes|) + (bytes + rest));
      ReadsBack(field * 8 + 2, Varint(|bytes|) + (bytes + rest));
      ReadsBack(|bytes|, bytes + rest);
      assert (bytes + rest)[..|bytes|] == bytes && (bytes + rest)[|bytes|..] == rest;
      assert ReadField(b) == Some((Field(field, Chunk(bytes)), rest));
    }
  }

  /** Tags above `low`, each above the one before it. */
  predicate Ascending(fs: seq<Field>, low: int) {
    && (forall i :: 0 <= i < |fs| ==> low < fs[i].tag)
    && (forall i, j :: 0 <= i < j < |fs| ==> fs[i].tag < fs[j].tag)
  }

  lemma PartAscends(part: seq<Field>, field: nat, fs: seq<Field>)
    requires part == [] || (|part| == 1 && part[0].tag == field)
    requires Ascending(fs, field)
    ensures Ascending(part + fs, field - 1)
  {
  }

  lemma PartsAscend(d: DeployData)
    ensures Ascending(Parts(d), 1)
  {
    hide Ascending;
    var es := TextPart(11, d.shardId);
    assert Ascending(es, 10) by { NothingAscends(); PartAscends(es, 11, []); assert es + [] == es; }
    PartAscends(NumberPart(10, d.validAfterBlockNumber), 10, es);
    es := NumberPart(10, d.validAfterBlockNumber) + es;
    Lower(es, 9, 8);
    PartAscends(NumberPart(8, d.phloLimit), 8, es);
    es := NumberPart(8, d.phloLimit) + es;
    PartAscends(NumberPart(7, d.phloPrice), 7, es);
    es := NumberPart(7, d.phloPrice) + es;
    Lower(es, 6, 3);
    PartAscends(NumberPart(3, d.timestamp), 3, es);
    es := NumberPart(3, d.timestamp) + es;
    PartAscends(TextPart(2, d.term), 2, es);
  }

  lemma NothingAscends()
    ensures Ascending([], 11)
  {
  }

  lemma Lower(fs: seq<Field>, high: int, low: int)
    requires Ascending(fs, high) && low <= high
    ensures Ascending(fs, low)
  {
  }

  /** Every field that is not at its default is written once, in ascending order of tag. */
  lemma ReadsParts(d: DeployData)
    ensures ReadFields(Encode(d)) == Some(Parts(d)) && Ascending(Parts(d), 1)
  {
    hide ReadFields, NumberField, TextField, NumberPart, TextPart, Ascending;
    PartsAscend(d);
    NothingReads();
    TextFieldReads(11, d.shardId, [], []);
    assert TextField(11, d.shardId) + [] == TextField(11, d.shardId) &&
           TextPart(11, d.shardId) + [] == TextPart(11, d.shardId);
    var e, es := TextField(11, d.shardId), TextPart(11, d.shardId);
    NumberFieldReads(10, d.validAfterBlockNumber, e, es);
    e, es := NumberField(10, d.validAfterBlockNumber) + e, NumberPart(10, d.validAfterBlockNumber) + es;
    NumberFieldReads(8, d.phloLimit, e, es);
    e, es := NumberField(8, d.phloLimit) + e, NumberPart(8, d.phloLimit) + es;
    NumberFieldReads(7, d.phloPrice, e, es);
    e, es := NumberField(7, d.phloPrice) + e, NumberPart(7, d.phloPrice) + es;
    NumberFieldReads(3, d.timestamp, e, es);
    e, es := NumberField(3, d.timestamp) + e, NumberPart(3, d.timestamp) + es;
    TextFieldReads(2, d.term, e, es);
  }

  lemma NothingReads()
    ensures ReadFields([]) == Some([])
  {
  }

  lemma {:induction false} LatestAppend(a: seq<Field>, b: seq<Field>, tag: nat)
    ensures Latest(a + b, tag) == if Latest(b, tag).Some? then Latest(b, tag) else Latest(a, tag)
  {
    if b == [] {
      assert a + b == a;
    } else {
      LatestAppend(a, b[..|b| - 1], tag);
      assert (a + b)[..|a + b| - 1] == a + b[..|b| - 1];
    }
  }

  lemma NumberPartLatest(field: nat, value: int, tag: nat)
    ensures tag != field ==> Latest(NumberPart(field, value), tag) == None
  {
  }

  lemma TextPartLatest(field: nat, value: Text, tag: nat)
    ensures tag != field ==> Latest(TextPart(field, value), tag) == None
  {
  }

  lemma PartsLatest(d: DeployData, tag: nat)
    ensures Latest(Parts(d), tag) ==
            if tag == 2 then Latest(TextPart(2, d.term), 2)
            else if tag == 3 then Latest(NumberPart(3, d.timestamp), 3)
            else if tag == 7 then Latest(NumberPart(7, d.phloPrice), 7)
            else if tag == 8 then Latest(NumberPart(8, d.phloLimit), 8)
            else if tag == 10 then Latest(NumberPart(10, d.validAfterBlockNumber), 10)
            else if tag == 11 then Latest(TextPart(11, d.shardId), 11)
            else None
  {
    hide Latest, NumberPart, TextPart;
    TextPartLatest(2, d.term, tag);
    NumberPartLatest(3, d.timestamp, tag);
    NumberPartLatest(7, d.phloPrice, tag);
    NumberPartLatest(8, d.phloLimit, tag);
    NumberPartLatest(10, d.validAfterBlockNumber, tag);
    TextPartLatest(11, d.shardId, tag);
    var es := TextPart(11, d.shardId);
    LatestAppend(NumberPart(10, d.validAfterBlockNumber), es, tag);
    es := NumberPart(10, d.validAfterBlockNumber) + es;
    LatestAppend(NumberPart(8, d.phloLimit), es, tag);
    es := NumberPart(8, d.phloLimit) + es;
    LatestAppend(NumberPart(7, d.phloPrice), es, tag);
    es := NumberPart(7, d.phloPrice) + es;
    LatestAppend(NumberPart(3, d.timestamp), es, tag);
    es := NumberPart(3, d.timestamp) + es;
    LatestAppend(TextPart(2, d.term), es, tag);
  }

  /** A reader recovers every deploy, defaults and all, up to negative numbers and unpaired
      surrogates. */
  lemma ReadsCanonical(d: DeployData)
    ensures Read(Encode(d)) == Some(Canonical(d))
  {
    hide ReadFields, Encode, Parts, Cleaned, DecodeText, EncodeText;
    ReadsParts(d);
    PartsLatest(d, 2);
    PartsLatest(d, 3);
    PartsLatest(d, 7);
    PartsLatest(d, 8);
    PartsLatest(d, 10);
    PartsLatest(d, 11);
    TextReadsBack(d.term);
    TextReadsBack(d.shardId);
    TextReadsBack([]);
  }

  predicate Encodable(d: DeployData) {
    && d.timestamp >= 0 && d.phloPrice >= 0 && d.phloLimit >= 0 && d.validAfterBlockNumber >= 0
    && WellFormed(d.term) && WellFormed(d.shardId)
  }

  /** The deploy itself comes back exactly when its numbers are not negative and its texts
      have no unpaired surrogate. */
  lemma RoundTripIff(d: DeployData)
    ensures Read(Encode(d)) == Some(d) <==> Encodable(d)
  {
    hide Read, Encode, Cleaned, WellFormed;
    ReadsCanonical(d);
    TextReadsBack(d.term);
    TextReadsBack(d.shardId);
  }

  /** So two such deploys never share their bytes. */
  lemma EncodeIsInjective(a: DeployData, b: DeployData)
    requires Encodable(a) && Encodable(b) && Encode(a) == Encode(b)
    ensures a == b
  {
    hide Read, Encode, Encodable;
    RoundTripIff(a);
    RoundTripIff(b);
  }

  /** What a negative number is taken for: its residue modulo 128, except that a multiple of
      128 leaves an explicit zero, which no number that is not negative is written as. */
  function Stand(n: int): int { if n >= 0 then n else if n % 128 != 0 then n % 128 else -128 }

  lemma StandCollides(n: int, field: nat)
    ensures NumberField(field, n) == NumberField(field, Stand(n))
    ensures n < 0 && n % 128 == 0 ==> NumberField(field, n) == Varint(field * 8) + [0]
  {
  }

  /** What of a deploy the bytes can tell. */
  function StandIn(d: DeployData): DeployData {
    DeployData(Cleaned(d.term), Stand(d.timestamp), Stand(d.phloPrice), Stand(d.phloLimit),
      Stand(d.validAfterBlockNumber), Cleaned(d.shardId))
  }

  lemma StandInEncodes(d: DeployData)
    ensures Encode(StandIn(d)) == Encode(d)
  {
    hide Cleaned, Scalars, Encoded, NumberField, Stand;
    StandCollides(d.timestamp, 3);
    StandCollides(d.phloPrice, 7);
    StandCollides(d.phloLimit, 8);
    StandCollides(d.validAfterBlockNumber, 10);
    CleanedScalars(d.term);
    CleanedKeepsLength(d.term);
    CleanedScalars(d.shardId);
    CleanedKeepsLength(d.shardId);
  }

  lemma NumberTold(field: nat, m: int, n: int)
    requires Latest(NumberPart(field, m), field) == Latest(NumberPart(field, n), field)
    ensures Stand(m) == Stand(n)
  {
  }

  lemma TextTold(field: nat, s: Text, t: Text)
    requires Latest(TextPart(field, s), field) == Latest(TextPart(field, t), field)
    ensures Cleaned(s) == Cleaned(t)
  {
    hide Cleaned, EncodeText, DecodeText;
    TextReadsBack(s);
    TextReadsBack(t);
  }

  /** Two deploys share their bytes exactly when they have the same stand-in: negative numbers
      of one residue, and texts that differ in unpaired surrogates, cannot be told apart. */
  lemma SameBytesIff(a: DeployData, b: DeployData)
    ensures Encode(a) == Encode(b) <==> StandIn(a) == StandIn(b)
  {
    hide Encode, Parts, Latest, NumberPart, TextPart, Stand, Cleaned, ReadFields, Ascending;
    StandInEncodes(a);
    StandInEncodes(b);
    if Encode(a) == Encode(b) {
      ReadsParts(a);
      ReadsParts(b);
      SamePart(a, b, 2);
      SamePart(a, b, 3);
      SamePart(a, b, 7);
      SamePart(a, b, 8);
      SamePart(a, b, 10);
      SamePart(a, b, 11);
      TextTold(2, a.term, b.term);
      NumberTold(3, a.timestamp, b.timestamp);
      NumberTold(7, a.phloPrice, b.phloPrice);
      NumberTold(8, a.phloLimit, b.phloLimit);
      NumberTold(10, a.validAfterBlockNumber, b.validAfterBlockNumber);
      TextTold(11, a.shardId, b.shardId);
    }
  }

  function PartOf(d: DeployData, tag: nat): seq<Field> {
    if tag == 2 then TextPart(2, d.term)
    else if tag == 3 then NumberPart(3, d.timestamp)
    else if tag == 7 then NumberPart(7, d.phloPrice)
    else if tag == 8 then NumberPart(8, d.phloLimit)
    else if tag == 10 then NumberPart(10, d.validAfterBlockNumber)
    else if tag == 11 then TextPart(11, d.shardId)
    else []
  }

  lemma SamePart(a: DeployData, b: DeployData, tag: nat)
    requires Parts(a) == Parts(b)
    ensures tag in {2, 3, 7, 8, 10, 11} ==> Latest(PartOf(a, tag), tag) == Latest(PartOf(b, tag), tag)
  {
    hide Parts, Latest, NumberPart, TextPart;
    PartsLatest(a, tag);
    PartsLatest(b, tag);
  }
}
