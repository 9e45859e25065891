/**
 The messages the router exchanges with its clients: KeyValue, Server and Instruction, with the
 generated merge, serialize, parse and size operations.  An optional field is an Option, so that
 its presence bit and its value travel together.  The contents of the statistics sub-message are
 kept in encoded form, where merging is appending.
 */
module Messages {
  import opened Wire
  import Seqs

  datatype KeyValue = KeyValue(
    key: Option<Bytes>, val: Option<Bytes>, flags: Option<int>, expireInSeconds: Option<int>,
    cas: Option<int>, allowReplace: Option<bool>, defaultCounterVal: Option<int>, offset: Option<int>,
    counterVal: Option<int>, serverIndex: Option<int>, noPropagate: Option<bool>,
    returnCode: Option<int>, returnError: Option<Bytes>)
  {
    // The accessors return the default of an absent field.
    function Key(): Bytes { key.GetOr([]) }
    function Val(): Bytes { val.GetOr([]) }
    function Flags(): int { flags.GetOr(0) }
    function Cas(): int { cas.GetOr(0) }
    function AllowReplace(): bool { allowReplace.GetOr(true) }
    function NoPropagate(): bool { noPropagate.GetOr(false) }
  }

  datatype Server = Server(hostname: Option<Bytes>, port: Option<int>) {
    function Host(): Bytes { hostname.GetOr([]) }
    function Port(): int { port.GetOr(0) }
  }

  datatype Instruction = Instruction(
    getKeys: seq<KeyValue>, setKeys: seq<KeyValue>, incrKeys: seq<KeyValue>,
    servers: seq<Server>, stats: Option<Bytes>)

  const EmptyKv := KeyValue(None, None, None, None, None, None, None, None, None, None, None, None, None)
  const EmptyInstruction := Instruction([], [], [], [], None)

  /** What the accessors make of absent fields: a set may replace and is propagated unless it says otherwise. */
  lemma AbsentFields()
    ensures EmptyKv.Key() == [] && EmptyKv.Val() == [] && EmptyKv.Flags() == 0 && EmptyKv.Cas() == 0
    ensures EmptyKv.AllowReplace() && !EmptyKv.NoPropagate()
  {
  }

  // ---------------------------------------------------------------- KeyValue

  const KvSchema: Schema := map[
    1 := Blob, 2 := Blob, 3 := UInt32, 4 := UInt64, 5 := UInt64, 6 := Bool, 7 := UInt64, 8 := Int32,
    9 := UInt64, 10 := Int32, 11 := Bool, 14 := Int32, 15 := Blob]

  function NumField(o: Option<int>): Option<Value> {
    if o.Some? then Some(Num(o.value)) else None
  }

  function FlagField(o: Option<bool>): Option<Value> {
    if o.Some? then Some(Flag(o.value)) else None
  }

  function DataField(o: Option<Bytes>): Option<Value> {
    if o.Some? then Some(Data(o.value)) else None
  }

  function KvField(kv: KeyValue, number: nat): Option<Value> {
    match number
    case 1 => DataField(kv.key)
    case 2 => DataField(kv.val)
    case 3 => NumField(kv.flags)
    case 4 => NumField(kv.expireInSeconds)
    case 5 => NumField(kv.cas)
    case 6 => FlagField(kv.allowReplace)
    case 7 => NumField(kv.defaultCounterVal)
    case 8 => NumField(kv.offset)
    case 9 => NumField(kv.counterVal)
    case 10 => NumField(kv.serverIndex)
    case 11 => FlagField(kv.noPropagate)
    case 14 => NumField(kv.returnCode)
    case 15 => DataField(kv.returnError)
    case _ => None
  }

  function KvRecord(kv: KeyValue): Record {
    map n | n in KvSchema && KvField(kv, n).Some? :: KvField(kv, n).value
  }

  function NumAt(rec: Record, number: nat): Option<int> {
    if number in rec && rec[number].Num? then Some(rec[number].n) else None
  }

  function FlagAt(rec: Record, number: nat): Option<bool> {
    if number in rec && rec[number].Flag? then Some(rec[number].b) else None
  }

  function DataAt(rec: Record, number: nat): Option<Bytes> {
    if number in rec && rec[number].Data? then Some(rec[number].bytes) else None
  }

  function KvOfRecord(rec: Record): KeyValue {
    KeyValue(DataAt(rec, 1), DataAt(rec, 2), NumAt(rec, 3), NumAt(rec, 4), NumAt(rec, 5), FlagAt(rec, 6),
             NumAt(rec, 7), NumAt(rec, 8), NumAt(rec, 9), NumAt(rec, 10), FlagAt(rec, 11), NumAt(rec, 14),
             DataAt(rec, 15))
  }

  predicate ValidKv(kv: KeyValue) {
    ValidRecord(KvSchema, KvRecord(kv))
  }

  function Over<T>(from: Option<T>, to: Option<T>): Option<T> {
    if from.Some? then from else to
  }

  /** Each field present in `from` overrides the one in `to`; the others stay. */
  function MergeKv(to: KeyValue, from: KeyValue): KeyValue {
    KeyValue(Over(from.key, to.key), Over(from.val, to.val), Over(from.flags, to.flags),
             Over(from.expireInSeconds, to.expireInSeconds), Over(from.cas, to.cas),
             Over(from.allowReplace, to.allowReplace), Over(from.defaultCounterVal, to.defaultCounterVal),
             Over(from.offset, to.offset), Over(from.counterVal, to.counterVal),
             Over(from.serverIndex, to.serverIndex), Over(from.noPropagate, to.noPropagate),
             Over(from.returnCode, to.returnCode), Over(from.returnError, to.returnError))
  }

  function SerializeKv(kv: KeyValue): Bytes
    requires ValidKv(kv)
  {
    SerializeFrom(KvSchema, KvRecord(kv), 1)
  }

  function KvByteSize(kv: KeyValue): nat
    requires ValidKv(kv)
  {
    ByteSizeFrom(KvSchema, KvRecord(kv), 1)
  }

  function ParseKv(input: Bytes): Parse<KeyValue> {
    match ParseFrom(KvSchema, input, map[])
    case Malformed => Malformed
    case Unsupported => Unsupported
    case Parsed(rec) => Parsed(KvOfRecord(rec))
  }

  function FieldAt(rec: Record, number: nat): Option<Value> {
    if number in rec then Some(rec[number]) else None
  }

  lemma KvRecordAt(kv: KeyValue, number: nat)
    requires number in KvSchema
    ensures FieldAt(KvRecord(kv), number) == KvField(kv, number)
  {
    hide KvField, KvSchema;
  }

  lemma KvOfKvRecord(kv: KeyValue)
    ensures KvOfRecord(KvRecord(kv)) == kv
  {
    hide KvRecord;
    KvRecordAt(kv, 1);
    KvRecordAt(kv, 2);
    KvRecordAt(kv, 3);
    KvRecordAt(kv, 4);
    KvRecordAt(kv, 5);
    KvRecordAt(kv, 6);
    KvRecordAt(kv, 7);
    KvRecordAt(kv, 8);
    KvRecordAt(kv, 9);
    KvRecordAt(kv, 10);
    KvRecordAt(kv, 11);
    KvRecordAt(kv, 14);
    KvRecordAt(kv, 15);
  }

  lemma MergeKvField(to: KeyValue, from: KeyValue, number: nat)
    ensures KvField(MergeKv(to, from), number) == Over(KvField(from, number), KvField(to, number))
  {
  }

  lemma MergeKvIsUnion(to: KeyValue, from: KeyValue)
    ensures KvRecord(MergeKv(to, from)) == KvRecord(to) + KvRecord(from)
  {
    hide KvField, MergeKv, KvSchema;
    forall n: nat
      ensures KvField(MergeKv(to, from), n) == Over(KvField(from, n), KvField(to, n))
    {
      MergeKvField(to, from, n);
    }
    assert KvRecord(MergeKv(to, from)) == KvRecord(to) + KvRecord(from);
  }

  /** What the parser makes of one serialized KeyValue after another: the second merged into the first. */
  lemma KvConcatenationMerges(a: KeyValue, b: KeyValue)
    requires ValidKv(a) && ValidKv(b)
    ensures ParseKv(SerializeKv(a) + SerializeKv(b)) == Parsed(MergeKv(a, b))
  {
    hide KvRecord, ParseFrom, SerializeFrom, KvOfRecord, MergeKv, KvField;
    var ra, rb := KvRecord(a), KvRecord(b);
    ParseSerialized(KvSchema, ra, SerializeKv(b), map[]);
    assert map[] + ra == ra;
    assert SerializeKv(b) + [] == SerializeKv(b);
    ParseSerialized(KvSchema, rb, [], ra);
    ParseNothing(KvSchema, ra + rb);
    MergeKvIsUnion(a, b);
    KvOfKvRecord(MergeKv(a, b));
  }

  lemma ParseNothing(schema: Schema, rec: Record)
    requires ValidRecord(schema, rec)
    ensures ParseFrom(schema, [], rec) == Parsed(rec)
  {
  }

  /** Parsing a serialized KeyValue restores every field and every presence bit. */
  lemma KvRoundTrip(kv: KeyValue)
    requires ValidKv(kv)
    ensures ParseKv(SerializeKv(kv)) == Parsed(kv)
  {
    hide KvRecord, ParseFrom, SerializeFrom, KvOfRecord, KvField;
    var rec := KvRecord(kv);
    assert SerializeKv(kv) + [] == SerializeKv(kv);
    ParseSerialized(KvSchema, rec, [], map[]);
    assert map[] + rec == rec;
    ParseNothing(KvSchema, rec);
    KvOfKvRecord(kv);
  }

  lemma KvByteSizeIsLength(kv: KeyValue)
    requires ValidKv(kv)
    ensures KvByteSize(kv) == |SerializeKv(kv)|
  {
    hide KvRecord, SerializeFrom, ByteSizeFrom, KvField;
    ByteSizeIsLength(KvSchema, KvRecord(kv), 1);
  }

  lemma {:induction false} SoleFieldFrom(schema: Schema, number: nat, v: Value, from: nat)
    requires ValidSchema(schema) && number in schema && ValidValue(schema[number], v)
    ensures SerializeFrom(schema, map[number := v], from) ==
      if from <= number then FieldBytes(number, schema[number], v) else []
    decreases MAX_FIELD + 1 - from
  {
    hide FieldBytes;
    if from <= MAX_FIELD {
      SoleFieldFrom(schema, number, v, from + 1);
      var field := FieldBytes(number, schema[number], v);
      assert field + [] == field && [] + field == field;
    }
  }

  lemma SoleField(kv: KeyValue, number: nat, v: Value, tag: Byte)
    requires KvRecord(kv) == map[number := v] && number in KvSchema && ValidValue(KvSchema[number], v)
    requires tag == Tag(number, KvSchema[number]) && tag < 128
    ensures ValidKv(kv) && SerializeKv(kv) == [tag] + Payload(KvSchema[number], v)
  {
    hide KvRecord, KvField, Payload, SerializeFrom, EncodeVarint;
    SoleFieldFrom(KvSchema, number, v, 1);
    OneByteVarint(tag);
  }

  lemma SoleRecord(kv: KeyValue, number: nat, v: Value)
    requires number in KvSchema && KvField(kv, number) == Some(v)
    requires forall n :: n in KvSchema && n != number ==> KvField(kv, n) == None
    ensures KvRecord(kv) == map[number := v]
  {
    hide KvField, KvSchema;
  }

  /** A message with one string or bytes field set is the tag the generated code has for it, then its payload. */
  lemma DataLayout(b: Bytes)
    requires |b| < TWO_31
    ensures var kv := EmptyKv.(key := Some(b)); ValidKv(kv) && SerializeKv(kv) == [10] + Payload(Blob, Data(b))
    ensures var kv := EmptyKv.(val := Some(b)); ValidKv(kv) && SerializeKv(kv) == [18] + Payload(Blob, Data(b))
    ensures var kv := EmptyKv.(returnError := Some(b)); ValidKv(kv) && SerializeKv(kv) == [122] + Payload(Blob, Data(b))
  {
    hide KvRecord, SerializeKv, ValidKv, EncodeVarint;
    SoleRecord(EmptyKv.(key := Some(b)), 1, Data(b));
    SoleField(EmptyKv.(key := Some(b)), 1, Data(b), 10);
    SoleRecord(EmptyKv.(val := Some(b)), 2, Data(b));
    SoleField(EmptyKv.(val := Some(b)), 2, Data(b), 18);
    SoleRecord(EmptyKv.(returnError := Some(b)), 15, Data(b));
    SoleField(EmptyKv.(returnError := Some(b)), 15, Data(b), 122);
  }

  /** The same for the unsigned fields: one of 32 bits and four of 64. */
  lemma NumberLayout(n: nat)
    requires n < TWO_64
    ensures n < TWO_32 ==>
      var kv := EmptyKv.(flags := Some(n)); ValidKv(kv) && SerializeKv(kv) == [24] + EncodeVarint(n)
    ensures var kv := EmptyKv.(expireInSeconds := Some(n)); ValidKv(kv) && SerializeKv(kv) == [32] + EncodeVarint(n)
    ensures var kv := EmptyKv.(cas := Some(n)); ValidKv(kv) && SerializeKv(kv) == [40] + EncodeVarint(n)
    ensures var kv := EmptyKv.(defaultCounterVal := Some(n)); ValidKv(kv) && SerializeKv(kv) == [56] + EncodeVarint(n)
    ensures var kv := EmptyKv.(counterVal := Some(n)); ValidKv(kv) && SerializeKv(kv) == [72] + EncodeVarint(n)
  {
    hide KvRecord, SerializeKv, ValidKv, EncodeVarint;
    if n < TWO_32 {
      SoleRecord(EmptyKv.(flags := Some(n)), 3, Num(n));
      SoleField(EmptyKv.(flags := Some(n)), 3, Num(n), 24);
    }
    SoleRecord(EmptyKv.(expireInSeconds := Some(n)), 4, Num(n));
    SoleField(EmptyKv.(expireInSeconds := Some(n)), 4, Num(n), 32);
    SoleRecord(EmptyKv.(cas := Some(n)), 5, Num(n));
    SoleField(EmptyKv.(cas := Some(n)), 5, Num(n), 40);
    SoleRecord(EmptyKv.(defaultCounterVal := Some(n)), 7, Num(n));
    SoleField(EmptyKv.(defaultCounterVal := Some(n)), 7, Num(n), 56);
    SoleRecord(EmptyKv.(counterVal := Some(n)), 9, Num(n));
    SoleField(EmptyKv.(counterVal := Some(n)), 9, Num(n), 72);
  }

  /** The same for the signed fields, where a negative number travels as its 64-bit two's complement. */
  lemma SignedLayout(n: int)
    requires -TWO_31 <= n < TWO_31
    ensures var kv := EmptyKv.(offset := Some(n)); ValidKv(kv) && SerializeKv(kv) == [64] + EncodeVarint(Unsigned(n))
    ensures var kv := EmptyKv.(serverIndex := Some(n));
      ValidKv(kv) && SerializeKv(kv) == [80] + EncodeVarint(Unsigned(n))
    ensures var kv := EmptyKv.(returnCode := Some(n));
      ValidKv(kv) && SerializeKv(kv) == [112] + EncodeVarint(Unsigned(n))
  {
    hide KvRecord, SerializeKv, ValidKv, EncodeVarint;
    SoleRecord(EmptyKv.(offset := Some(n)), 8, Num(n));
    SoleField(EmptyKv.(offset := Some(n)), 8, Num(n), 64);
    SoleRecord(EmptyKv.(serverIndex := Some(n)), 10, Num(n));
    SoleField(EmptyKv.(serverIndex := Some(n)), 10, Num(n), 80);
    SoleRecord(EmptyKv.(returnCode := Some(n)), 14, Num(n));
    SoleField(EmptyKv.(returnCode := Some(n)), 14, Num(n), 112);
  }

  function Unsigned(n: int): nat
    requires -TWO_64 <= n
  {
    if n < 0 then n + TWO_64 else n
  }

  lemma SoleFieldValid(kv: KeyValue, number: nat, v: Value)
    requires number in KvSchema && KvField(kv, number) == Some(v)
    requires forall n :: n in KvSchema && n != number ==> KvField(kv, n) == None
    ensures ValidKv(kv) <==> ValidValue(KvSchema[number], v)
  {
    hide KvField, KvSchema, KvRecord, ValidValue;
    SoleRecord(kv, number, v);
    assert number in KvRecord(kv) && KvRecord(kv)[number] == v;
  }

  /** The width of each number field: 32 bits for flags, 64 for four others, int32 for the signed ones. */
  lemma NumberWidths(n: int)
    ensures ValidKv(EmptyKv.(flags := Some(n))) <==> 0 <= n < TWO_32
    ensures ValidKv(EmptyKv.(expireInSeconds := Some(n))) <==> 0 <= n < TWO_64
    ensures ValidKv(EmptyKv.(cas := Some(n))) <==> 0 <= n < TWO_64
    ensures ValidKv(EmptyKv.(defaultCounterVal := Some(n))) <==> 0 <= n < TWO_64
    ensures ValidKv(EmptyKv.(counterVal := Some(n))) <==> 0 <= n < TWO_64
    ensures ValidKv(EmptyKv.(offset := Some(n))) <==> -TWO_31 <= n < TWO_31
    ensures ValidKv(EmptyKv.(serverIndex := Some(n))) <==> -TWO_31 <= n < TWO_31
    ensures ValidKv(EmptyKv.(returnCode := Some(n))) <==> -TWO_31 <= n < TWO_31
  {
    hide ValidKv, KvRecord;
    SoleFieldValid(EmptyKv.(flags := Some(n)), 3, Num(n));
    SoleFieldValid(EmptyKv.(expireInSeconds := Some(n)), 4, Num(n));
    SoleFieldValid(EmptyKv.(cas := Some(n)), 5, Num(n));
    SoleFieldValid(EmptyKv.(defaultCounterVal := Some(n)), 7, Num(n));
    SoleFieldValid(EmptyKv.(offset := Some(n)), 8, Num(n));
    SoleFieldValid(EmptyKv.(counterVal := Some(n)), 9, Num(n));
    SoleFieldValid(EmptyKv.(serverIndex := Some(n)), 10, Num(n));
    SoleFieldValid(EmptyKv.(returnCode := Some(n)), 14, Num(n));
  }

  /** The same for the two flags. */
  lemma FlagLayout(f: bool)
    ensures var kv := EmptyKv.(allowReplace := Some(f)); ValidKv(kv) && SerializeKv(kv) == [48] + [if f then 1 else 0]
    ensures var kv := EmptyKv.(noPropagate := Some(f)); ValidKv(kv) && SerializeKv(kv) == [88] + [if f then 1 else 0]
  {
    hide KvRecord, SerializeKv, ValidKv, EncodeVarint;
    SoleRecord(EmptyKv.(allowReplace := Some(f)), 6, Flag(f));
    SoleField(EmptyKv.(allowReplace := Some(f)), 6, Flag(f), 48);
    SoleRecord(EmptyKv.(noPropagate := Some(f)), 11, Flag(f));
    SoleField(EmptyKv.(noPropagate := Some(f)), 11, Flag(f), 88);
  }

  // ---------------------------------------------------------------- Server

  const ServerSchema: Schema := map[1 := Blob, 2 := Int32]

  function ServerRecord(s: Server): Record {
    (if s.hostname.Some? then map[1 := Data(s.hostname.value)] else map[])
    + (if s.port.Some? then map[2 := Num(s.port.value)] else map[])
  }

  predicate ValidServer(s: Server) {
    ValidRecord(ServerSchema, ServerRecord(s))
  }

  function SerializeServer(s: Server): Bytes
    requires ValidServer(s)
  {
    SerializeFrom(ServerSchema, ServerRecord(s), 1)
  }

  function ServerByteSize(s: Server): nat
    requires ValidServer(s)
  {
    ByteSizeFrom(ServerSchema, ServerRecord(s), 1)
  }

  function ParseServer(input: Bytes): Parse<Server> {
    match ParseFrom(ServerSchema, input, map[])
    case Malformed => Malformed
    case Unsupported => Unsupported
    case Parsed(rec) => Parsed(Server(DataAt(rec, 1), NumAt(rec, 2)))
  }

  lemma ServerRoundTrip(s: Server)
    requires ValidServer(s)
    ensures ParseServer(SerializeServer(s)) == Parsed(s)
  {
    hide ParseFrom, SerializeFrom;
    var rec := ServerRecord(s);
    assert SerializeServer(s) + [] == SerializeServer(s);
    ParseSerialized(ServerSchema, rec, [], map[]);
    assert map[] + rec == rec;
    ParseNothing(ServerSchema, rec);
  }

  // ---------------------------------------------------------------- Instruction

  const InstructionSchema: Schema := map[1 := Blob, 2 := Blob, 3 := Blob, 4 := Blob, 5 := Blob]

  predicate ValidInstruction(i: Instruction) {
    && (forall kv :: kv in i.getKeys + i.setKeys + i.incrKeys ==> ValidKv(kv) && |SerializeKv(kv)| < TWO_31)
    && (forall s :: s in i.servers ==> ValidServer(s) && |SerializeServer(s)| < TWO_31)
    && (i.stats.Some? ==> |i.stats.value| < TWO_31)
  }

  function AddKey(i: Instruction, number: nat, kv: KeyValue): Instruction
    requires 1 <= number <= 3
  {
    match number
    case 1 => i.(getKeys := i.getKeys + [kv])
    case 2 => i.(setKeys := i.setKeys + [kv])
    case 3 => i.(incrKeys := i.incrKeys + [kv])
  }

  // A sub-message read for field `number`.
  function Absorb(i: Instruction, number: nat, body: Bytes): Parse<Instruction>
    requires number in InstructionSchema
  {
    if number <= 3 then
      match ParseKv(body)
      case Malformed => Malformed
      case Unsupported => Unsupported
      case Parsed(kv) => Parsed(AddKey(i, number, kv))
    else if number == 4 then
      match ParseServer(body)
      case Malformed => Malformed
      case Unsupported => Unsupported
      case Parsed(s) => Parsed(i.(servers := i.servers + [s]))
    else
      Parsed(i.(stats := Some(i.stats.GetOr([]) + body)))
  }

  // One turn of the parse loop.
  function ParseInstructionField(input: Bytes, i: Instruction): (r: Parse<(Instruction, Bytes)>)
    requires input != []
    ensures r.Parsed? ==> |r.message.1| < |input|
  {
    match ReadField(InstructionSchema, input)
    case Malformed => Malformed
    case Unsupported => Unsupported
    case Parsed((item, rest)) =>
      if item.Skipped? then Parsed((i, rest))
      else
        match Absorb(i, item.number, item.value.bytes)
        case Malformed => Malformed
        case Unsupported => Unsupported
        case Parsed(i') => Parsed((i', rest))
  }

  function ParseInstructionFrom(input: Bytes, i: Instruction): Parse<Instruction>
    decreases |input|
  {
    if input == [] then Parsed(i)
    else
      match ParseInstructionField(input, i)
      case Malformed => Malformed
      case Unsupported => Unsupported
      case Parsed((i', rest)) => ParseInstructionFrom(rest, i')
  }

  function ParseInstruction(input: Bytes): Parse<Instruction> {
    ParseInstructionFrom(input, EmptyInstruction)
  }

  /** The generated parse loop of Instruction. */
  method MergeInstructionFromCodedStream(input: Bytes, i: Instruction) returns (r: Parse<Instruction>)
    ensures r == ParseInstructionFrom(input, i)
  {
    var pending, cur := input, i;
    while pending != []
      invariant ParseInstructionFrom(pending, cur) == ParseInstructionFrom(input, i)
      decreases |pending|
    {
      match ParseInstructionField(pending, cur) {
        case Malformed => return Malformed;
        case Unsupported => return Unsupported;
        case Parsed((next, rest)) => cur, pending := next, rest;
      }
    }
    return Parsed(cur);
  }

  function MessageField(number: nat, body: Bytes): Bytes
    requires |body| < TWO_31
  {
    FieldBytes(number, Blob, Data(body))
  }

  predicate ValidBodies(bodies: seq<Bytes>) {
    forall b :: b in bodies ==> |b| < TWO_31
  }

  // A repeated field: one tagged message per element.
  function RepeatedField(number: nat, bodies: seq<Bytes>): Bytes
    requires ValidBodies(bodies)
  {
    if bodies == [] then [] else MessageField(number, bodies[0]) + RepeatedField(number, bodies[1..])
  }

  function KvBodies(kvs: seq<KeyValue>): (r: seq<Bytes>)
    requires forall kv :: kv in kvs ==> ValidKv(kv)
  {
    seq(|kvs|, j requires 0 <= j < |kvs| => SerializeKv(kvs[j]))
  }

  function ServerBodies(servers: seq<Server>): seq<Bytes>
    requires forall s :: s in servers ==> ValidServer(s)
  {
    seq(|servers|, j requires 0 <= j < |servers| => SerializeServer(servers[j]))
  }

  function StatsBodies(stats: Option<Bytes>): seq<Bytes> {
    if stats.Some? then [stats.value] else []
  }

  // The bodies of field `number`, in order.
  function Bodies(i: Instruction, number: nat): (bodies: seq<Bytes>)
    requires ValidInstruction(i)
    ensures ValidBodies(bodies)
  {
    match number
    case 1 => KvBodies(i.getKeys)
    case 2 => KvBodies(i.setKeys)
    case 3 => KvBodies(i.incrKeys)
    case 4 => ServerBodies(i.servers)
    case 5 => StatsBodies(i.stats)
    case _ => []
  }

  function SerializeInstructionFrom(i: Instruction, number: nat): Bytes
    requires ValidInstruction(i)
    decreases 6 - number, |i.getKeys|
  {
    if number > 5 then []
    else RepeatedField(number, Bodies(i, number)) + SerializeInstructionFrom(i, number + 1)
  }

  function SerializeInstruction(i: Instruction): Bytes
    requires ValidInstruction(i)
  {
    SerializeInstructionFrom(i, 1)
  }

  /** Whether the message can be sent: the library counts its bytes in an int. */
  predicate Sendable(i: Instruction) {
    ValidInstruction(i) && |SerializeInstruction(i)| < TWO_31
  }

  /** Repeated fields are appended, statistics merged. */
  function MergeInstruction(to: Instruction, from: Instruction): Instruction {
    Instruction(
      to.getKeys + from.getKeys, to.setKeys + from.setKeys, to.incrKeys + from.incrKeys,
      to.servers + from.servers,
      if from.stats.Some? then Some(to.stats.GetOr([]) + from.stats.value) else to.stats)
  }

  // The part of an instruction carried by field `number` alone.
  function Only(i: Instruction, number: nat): Instruction {
    match number
    case 1 => EmptyInstruction.(getKeys := i.getKeys)
    case 2 => EmptyInstruction.(setKeys := i.setKeys)
    case 3 => EmptyInstruction.(incrKeys := i.incrKeys)
    case 4 => EmptyInstruction.(servers := i.servers)
    case 5 => EmptyInstruction.(stats := i.stats)
    case _ => EmptyInstruction
  }

  lemma ParseMessageField(number: nat, body: Bytes, rest: Bytes, onto: Instruction, next: Instruction)
    requires number in InstructionSchema && |body| < TWO_31
    requires Absorb(onto, number, body) == Parsed(next)
    ensures ParseInstructionFrom(MessageField(number, body) + rest, onto) == ParseInstructionFrom(rest, next)
  {
    hide ReadField, FieldBytes, Absorb;
    FieldRoundTrip(InstructionSchema, number, Data(body), rest);
  }

  function AddKeys(i: Instruction, number: nat, kvs: seq<KeyValue>): Instruction
    requires 1 <= number <= 3
  {
    match number
    case 1 => i.(getKeys := i.getKeys + kvs)
    case 2 => i.(setKeys := i.setKeys + kvs)
    case 3 => i.(incrKeys := i.incrKeys + kvs)
  }

  predicate ValidKvs(kvs: seq<KeyValue>) {
    forall kv :: kv in kvs ==> ValidKv(kv) && |SerializeKv(kv)| < TWO_31
  }

  lemma {:induction false} ParseKeys(number: nat, kvs: seq<KeyValue>, rest: Bytes, onto: Instruction)
    requires 1 <= number <= 3 && ValidKvs(kvs)
    ensures ParseInstructionFrom(RepeatedField(number, KvBodies(kvs)) + rest, onto)
         == ParseInstructionFrom(rest, AddKeys(onto, number, kvs))
    decreases |kvs|
  {
    hide ParseInstructionFrom, MessageField, ParseKv, SerializeKv, ValidKv;
    var bodies := KvBodies(kvs);
    if kvs == [] {
      assert RepeatedField(number, bodies) + rest == rest;
      assert AddKeys(onto, number, kvs) == onto;
    } else {
      var head, tail := MessageField(number, bodies[0]), RepeatedField(number, KvBodies(kvs[1..]));
      assert bodies[1..] == KvBodies(kvs[1..]);
      assert RepeatedField(number, bodies) + rest == head + (tail + rest) by {
        Seqs.ConcatAssoc(head, tail, rest);
      }
      var next := AddKey(onto, number, kvs[0]);
      KvRoundTrip(kvs[0]);
      ParseMessageField(number, bodies[0], tail + rest, onto, next);
      ParseKeys(number, kvs[1..], rest, next);
      AddKeysStep(onto, number, kvs);
    }
  }

  lemma AddKeysStep(i: Instruction, number: nat, kvs: seq<KeyValue>)
    requires 1 <= number <= 3 && kvs != []
    ensures AddKeys(AddKey(i, number, kvs[0]), number, kvs[1..]) == AddKeys(i, number, kvs)
  {
    assert [kvs[0]] + kvs[1..] == kvs;
    Seqs.ConcatAssoc(i.getKeys, [kvs[0]], kvs[1..]);
    Seqs.ConcatAssoc(i.setKeys, [kvs[0]], kvs[1..]);
    Seqs.ConcatAssoc(i.incrKeys, [kvs[0]], kvs[1..]);
  }

  lemma {:induction false} ParseServers(servers: seq<Server>, rest: Bytes, onto: Instruction)
    requires forall s :: s in servers ==> ValidServer(s) && |SerializeServer(s)| < TWO_31
    ensures ParseInstructionFrom(RepeatedField(4, ServerBodies(servers)) + rest, onto)
         == ParseInstructionFrom(rest, onto.(servers := onto.servers + servers))
    decreases |servers|
  {
    hide ParseInstructionFrom, MessageField, ParseServer, SerializeServer, ValidServer;
    var bodies := ServerBodies(servers);
    if servers == [] {
      assert RepeatedField(4, bodies) + rest == rest;
      assert onto.servers + servers == onto.servers;
    } else {
      var head, tail := MessageField(4, bodies[0]), RepeatedField(4, ServerBodies(servers[1..]));
      assert bodies[1..] == ServerBodies(servers[1..]);
      assert RepeatedField(4, bodies) + rest == head + (tail + rest) by {
        Seqs.ConcatAssoc(head, tail, rest);
      }
      var next := onto.(servers := onto.servers + [servers[0]]);
      ServerRoundTrip(servers[0]);
      ParseMessageField(4, bodies[0], tail + rest, onto, next);
      ParseServers(servers[1..], rest, next);
      assert onto.servers + [servers[0]] + servers[1..] == onto.servers + servers;
    }
  }

  lemma ParseStats(stats: Option<Bytes>, rest: Bytes, onto: Instruction)
    requires stats.Some? ==> |stats.value| < TWO_31
    ensures ParseInstructionFrom(RepeatedField(5, StatsBodies(stats)) + rest, onto)
         == ParseInstructionFrom(rest, MergeInstruction(onto, EmptyInstruction.(stats := stats)))
  {
    hide ParseInstructionFrom, MessageField;
    var next := MergeInstruction(onto, EmptyInstruction.(stats := stats));
    if stats.None? {
      assert RepeatedField(5, StatsBodies(stats)) + rest == rest;
      assert next == onto;
    } else {
      var body := stats.value;
      var none: seq<Bytes> := [];
      assert [body][1..] == none;
      assert RepeatedField(5, [body]) == MessageField(5, body) + RepeatedField(5, none);
      assert RepeatedField(5, [body]) == MessageField(5, body);
      assert next == onto.(stats := Some(onto.stats.GetOr([]) + body));
      ParseMessageField(5, body, rest, onto, next);
    }
  }

  lemma ParseFieldGroup(i: Instruction, number: nat, rest: Bytes, onto: Instruction)
    requires ValidInstruction(i) && 1 <= number <= 5
    ensures ParseInstructionFrom(RepeatedField(number, Bodies(i, number)) + rest, onto)
         == ParseInstructionFrom(rest, MergeInstruction(onto, Only(i, number)))
  {
    hide ParseInstructionFrom, RepeatedField, ValidKv, SerializeKv, ValidServer, SerializeServer;
    var merged := MergeInstruction(onto, Only(i, number));
    match number
    case 1 => ParseKeys(1, i.getKeys, rest, onto); assert merged == AddKeys(onto, 1, i.getKeys);
    case 2 => ParseKeys(2, i.setKeys, rest, onto); assert merged == AddKeys(onto, 2, i.setKeys);
    case 3 => ParseKeys(3, i.incrKeys, rest, onto); assert merged == AddKeys(onto, 3, i.incrKeys);
    case 4 => ParseServers(i.servers, rest, onto); assert merged == onto.(servers := onto.servers + i.servers);
    case 5 => ParseStats(i.stats, rest, onto);
  }

  lemma ParseSerializedInstruction(i: Instruction, rest: Bytes, onto: Instruction)
    requires ValidInstruction(i)
    ensures ParseInstructionFrom(SerializeInstruction(i) + rest, onto)
         == ParseInstructionFrom(rest, MergeInstruction(onto, i))
  {
    hide ParseInstructionFrom, RepeatedField, Bodies, ValidInstruction;
    ParseGroupsFrom(i, 1, rest, onto);
    assert Rest(i, 1) == i;
  }

  // Fields number..5 of an instruction.
  function Rest(i: Instruction, number: nat): Instruction {
    Instruction(
      if number <= 1 then i.getKeys else [], if number <= 2 then i.setKeys else [],
      if number <= 3 then i.incrKeys else [], if number <= 4 then i.servers else [],
      if number <= 5 then i.stats else None)
  }

  lemma RestStep(i: Instruction, number: nat, onto: Instruction)
    requires 1 <= number <= 5
    ensures MergeInstruction(MergeInstruction(onto, Only(i, number)), Rest(i, number + 1))
         == MergeInstruction(onto, Rest(i, number))
  {
  }

  lemma {:induction false} ParseGroupsFrom(i: Instruction, number: nat, rest: Bytes, onto: Instruction)
    requires ValidInstruction(i) && 1 <= number <= 6
    ensures ParseInstructionFrom(SerializeInstructionFrom(i, number) + rest, onto)
         == ParseInstructionFrom(rest, MergeInstruction(onto, Rest(i, number)))
    decreases 6 - number
  {
    hide ParseInstructionFrom, RepeatedField, Bodies, ValidInstruction;
    if number > 5 {
      assert SerializeInstructionFrom(i, number) + rest == rest;
      assert MergeInstruction(onto, Rest(i, number)) == onto;
    } else {
      var group, more := RepeatedField(number, Bodies(i, number)), SerializeInstructionFrom(i, number + 1);
      assert SerializeInstructionFrom(i, number) + rest == group + (more + rest) by {
        Seqs.ConcatAssoc(group, more, rest);
      }
      ParseFieldGroup(i, number, more + rest, onto);
      ParseGroupsFrom(i, number + 1, rest, MergeInstruction(onto, Only(i, number)));
      RestStep(i, number, onto);
    }
  }

  /** One serialized instruction after another parses to the second merged into the first. */
  lemma InstructionConcatenationMerges(a: Instruction, b: Instruction)
    requires ValidInstruction(a) && ValidInstruction(b)
    ensures ParseInstruction(SerializeInstruction(a) + SerializeInstruction(b)) == Parsed(MergeInstruction(a, b))
  {
    hide ParseInstructionFrom, SerializeInstruction, ValidInstruction;
    ParseSerializedInstruction(a, SerializeInstruction(b), EmptyInstruction);
    MergeEmptyInstruction(a);
    assert SerializeInstruction(b) + [] == SerializeInstruction(b);
    ParseSerializedInstruction(b, [], a);
    ParseNoInstruction(MergeInstruction(a, b));
  }

  lemma MergeEmptyInstruction(i: Instruction)
    ensures MergeInstruction(EmptyInstruction, i) == i
  {
    assert i.stats.Some? ==> [] + i.stats.value == i.stats.value;
  }

  lemma ParseNoInstruction(i: Instruction)
    ensures ParseInstructionFrom([], i) == Parsed(i)
  {
  }

  /** Parsing a serialized instruction restores it. */
  lemma InstructionRoundTrip(i: Instruction)
    requires ValidInstruction(i)
    ensures ParseInstruction(SerializeInstruction(i)) == Parsed(i)
  {
    hide ParseInstructionFrom, SerializeInstruction, ValidInstruction;
    assert SerializeInstruction(i) + [] == SerializeInstruction(i);
    ParseSerializedInstruction(i, [], EmptyInstruction);
    MergeEmptyInstruction(i);
    ParseNoInstruction(i);
  }

  // ---------------------------------------------------------------- layout of an instruction

  // All the instruction has is one message in field `number`.
  ghost predicate OnlyGroup(i: Instruction, number: nat, body: Bytes) {
    && ValidInstruction(i) && |body| < TWO_31 && 1 <= number <= 5
    && forall n :: 1 <= n <= 5 ==> Bodies(i, n) == if n == number then [body] else []
  }

  lemma OneBody(number: nat, body: Bytes)
    requires |body| < TWO_31
    ensures RepeatedField(number, [body]) == MessageField(number, body) && RepeatedField(number, []) == []
  {
    hide MessageField;
    var none: seq<Bytes> := [];
    assert [body][1..] == none;
    assert RepeatedField(number, [body]) == MessageField(number, body) + RepeatedField(number, none);
  }

  lemma {:induction false} SoleGroupFrom(i: Instruction, number: nat, body: Bytes, from: nat)
    requires OnlyGroup(i, number, body) && from >= 1
    ensures SerializeInstructionFrom(i, from) == if from <= number then MessageField(number, body) else []
    decreases 6 - from
  {
    hide ValidInstruction, Bodies, MessageField, RepeatedField;
    if from <= 5 {
      SoleGroupFrom(i, number, body, from + 1);
      OneBody(from, body);
      var field := MessageField(number, body);
      assert field + [] == field && [] + field == field;
    }
  }

  lemma TaggedMessage(number: nat, body: Bytes, tag: Byte)
    requires |body| < TWO_31 && tag == Tag(number, Blob) && tag < 128
    ensures MessageField(number, body) == [tag] + EncodeVarint(|body|) + body
  {
    hide EncodeVarint;
    OneByteVarint(tag);
    Seqs.ConcatAssoc([tag], EncodeVarint(|body|), body);
  }

  lemma SoleGroup(i: Instruction, number: nat, body: Bytes, tag: Byte)
    requires OnlyGroup(i, number, body) && tag == Tag(number, Blob) && tag < 128
    ensures ValidInstruction(i) && SerializeInstruction(i) == [tag] + EncodeVarint(|body|) + body
  {
    hide ValidInstruction, Bodies, SerializeInstructionFrom, EncodeVarint, MessageField;
    SoleGroupFrom(i, number, body, 1);
    TaggedMessage(number, body, tag);
  }

  lemma OneKeyGroup(kv: KeyValue)
    requires ValidKv(kv) && |SerializeKv(kv)| < TWO_31
    ensures OnlyGroup(EmptyInstruction.(getKeys := [kv]), 1, SerializeKv(kv))
    ensures OnlyGroup(EmptyInstruction.(setKeys := [kv]), 2, SerializeKv(kv))
    ensures OnlyGroup(EmptyInstruction.(incrKeys := [kv]), 3, SerializeKv(kv))
  {
    hide SerializeKv, ValidKv, SerializeServer, ValidServer;
  }

  /** An instruction with one key is the tag of its list, as the generated code has it, the length, and the key. */
  lemma KeyListLayout(kv: KeyValue)
    requires ValidKv(kv) && |SerializeKv(kv)| < TWO_31
    ensures var i := EmptyInstruction.(getKeys := [kv]);
      ValidInstruction(i) && SerializeInstruction(i) == [10] + EncodeVarint(|SerializeKv(kv)|) + SerializeKv(kv)
    ensures var i := EmptyInstruction.(setKeys := [kv]);
      ValidInstruction(i) && SerializeInstruction(i) == [18] + EncodeVarint(|SerializeKv(kv)|) + SerializeKv(kv)
    ensures var i := EmptyInstruction.(incrKeys := [kv]);
      ValidInstruction(i) && SerializeInstruction(i) == [26] + EncodeVarint(|SerializeKv(kv)|) + SerializeKv(kv)
  {
    hide SerializeKv, ValidKv, SerializeInstruction, EncodeVarint, OnlyGroup, ValidInstruction;
    OneKeyGroup(kv);
    SoleGroup(EmptyInstruction.(getKeys := [kv]), 1, SerializeKv(kv), 10);
    SoleGroup(EmptyInstruction.(setKeys := [kv]), 2, SerializeKv(kv), 18);
    SoleGroup(EmptyInstruction.(incrKeys := [kv]), 3, SerializeKv(kv), 26);
  }

  lemma OneServerGroup(s: Server)
    requires ValidServer(s) && |SerializeServer(s)| < TWO_31
    ensures OnlyGroup(EmptyInstruction.(servers := [s]), 4, SerializeServer(s))
  {
    hide SerializeKv, ValidKv, SerializeServer, ValidServer;
  }

  /** The same for a server. */
  lemma ServerListLayout(s: Server)
    requires ValidServer(s) && |SerializeServer(s)| < TWO_31
    ensures var i := EmptyInstruction.(servers := [s]);
      ValidInstruction(i)
      && SerializeInstruction(i) == [34] + EncodeVarint(|SerializeServer(s)|) + SerializeServer(s)
  {
    hide SerializeServer, ValidServer, SerializeInstruction, EncodeVarint, OnlyGroup, ValidInstruction;
    OneServerGroup(s);
    SoleGroup(EmptyInstruction.(servers := [s]), 4, SerializeServer(s), 34);
  }

  lemma StatsGroup(stats: Bytes)
    requires |stats| < TWO_31
    ensures OnlyGroup(EmptyInstruction.(stats := Some(stats)), 5, stats)
  {
    hide SerializeKv, ValidKv, SerializeServer, ValidServer;
  }

  /** The same for statistics. */
  lemma StatsLayout(stats: Bytes)
    requires |stats| < TWO_31
    ensures var i := EmptyInstruction.(stats := Some(stats));
      ValidInstruction(i) && SerializeInstruction(i) == [42] + EncodeVarint(|stats|) + stats
  {
    hide SerializeInstruction, EncodeVarint, OnlyGroup, ValidInstruction;
    StatsGroup(stats);
    SoleGroup(EmptyInstruction.(stats := Some(stats)), 5, stats, 42);
  }

  /** A server with only a host name, and one with only a port. */
  lemma ServerLayout(host: Bytes, port: int)
    requires |host| < TWO_31 && -TWO_31 <= port < TWO_31
    ensures var s := Server(Some(host), None);
      ValidServer(s) && SerializeServer(s) == [10] + (EncodeVarint(|host|) + host)
    ensures var s := Server(None, Some(port));
      ValidServer(s) && SerializeServer(s) == [16] + EncodeVarint(Unsigned(port))
  {
    assert ServerRecord(Server(Some(host), None)) == map[1 := Data(host)];
    assert ServerRecord(Server(None, Some(port))) == map[2 := Num(port)];
    hide ServerRecord, SerializeFrom, EncodeVarint;
    SoleServerField(Server(Some(host), None), 1, Data(host), 10);
    SoleServerField(Server(None, Some(port)), 2, Num(port), 16);
  }

  lemma SoleServerField(s: Server, number: nat, v: Value, tag: Byte)
    requires ServerRecord(s) == map[number := v] && number in ServerSchema && ValidValue(ServerSchema[number], v)
    requires tag == Tag(number, ServerSchema[number]) && tag < 128
    ensures ValidServer(s) && SerializeServer(s) == [tag] + Payload(ServerSchema[number], v)
  {
    hide ServerRecord, Payload, SerializeFrom, EncodeVarint;
    SoleFieldFrom(ServerSchema, number, v, 1);
    OneByteVarint(tag);
  }

  // ---------------------------------------------------------------- size of an instruction

  function MessageSize(size: nat): nat {
    VarintSize(size) + size
  }

  function KeysByteSize(kvs: seq<KeyValue>): nat
    requires ValidKvs(kvs)
  {
    if kvs == [] then 0 else 1 + MessageSize(KvByteSize(kvs[0])) + KeysByteSize(kvs[1..])
  }

  function ServersByteSize(servers: seq<Server>): nat
    requires forall s :: s in servers ==> ValidServer(s)
  {
    if servers == [] then 0 else 1 + MessageSize(ServerByteSize(servers[0])) + ServersByteSize(servers[1..])
  }

  /** The generated size computation: tag bytes and message sizes summed field by field. */
  function InstructionByteSize(i: Instruction): nat
    requires ValidInstruction(i)
  {
    (if i.stats.Some? then 1 + MessageSize(|i.stats.value|) else 0)
    + KeysByteSize(i.getKeys) + KeysByteSize(i.setKeys) + KeysByteSize(i.incrKeys)
    + ServersByteSize(i.servers)
  }

  lemma MessageFieldLength(number: nat, body: Bytes)
    requires |body| < TWO_31 && 1 <= number <= MAX_FIELD
    ensures |MessageField(number, body)| == 1 + MessageSize(|body|)
  {
    FieldSizeIsLength(number, Blob, Data(body));
  }

  lemma {:induction false} KeysLength(number: nat, kvs: seq<KeyValue>)
    requires 1 <= number <= 3 && ValidKvs(kvs)
    ensures |RepeatedField(number, KvBodies(kvs))| == KeysByteSize(kvs)
    decreases |kvs|
  {
    hide MessageField, SerializeKv, KvByteSize, ValidKv;
    if kvs != [] {
      var bodies := KvBodies(kvs);
      assert bodies[1..] == KvBodies(kvs[1..]);
      KvByteSizeIsLength(kvs[0]);
      MessageFieldLength(number, bodies[0]);
      KeysLength(number, kvs[1..]);
    }
  }

  lemma {:induction false} ServersLength(servers: seq<Server>)
    requires forall s :: s in servers ==> ValidServer(s) && |SerializeServer(s)| < TWO_31
    ensures |RepeatedField(4, ServerBodies(servers))| == ServersByteSize(servers)
    decreases |servers|
  {
    hide MessageField, SerializeServer, ServerByteSize, ValidServer;
    if servers != [] {
      var bodies := ServerBodies(servers);
      assert bodies[1..] == ServerBodies(servers[1..]);
      ServerByteSizeIsLength(servers[0]);
      MessageFieldLength(4, bodies[0]);
      ServersLength(servers[1..]);
    }
  }

  lemma ServerByteSizeIsLength(s: Server)
    requires ValidServer(s)
    ensures ServerByteSize(s) == |SerializeServer(s)|
  {
    hide ServerRecord, SerializeFrom, ByteSizeFrom;
    ByteSizeIsLength(ServerSchema, ServerRecord(s), 1);
  }

  lemma StatsLength(stats: Option<Bytes>)
    requires stats.Some? ==> |stats.value| < TWO_31
    ensures |RepeatedField(5, StatsBodies(stats))| == if stats.Some? then 1 + MessageSize(|stats.value|) else 0
  {
    hide MessageField, MessageSize;
    if stats.Some? {
      MessageFieldLength(5, stats.value);
      var none: seq<Bytes> := [];
      assert [stats.value][1..] == none;
    }
  }

  lemma GroupLength(i: Instruction, number: nat)
    requires ValidInstruction(i)
    ensures |SerializeInstructionFrom(i, number)| ==
      if number > 5 then 0 else |RepeatedField(number, Bodies(i, number))| + |SerializeInstructionFrom(i, number + 1)|
  {
    hide RepeatedField, Bodies, ValidInstruction;
  }

  /** The announced size is the number of bytes written. */
  lemma InstructionByteSizeIsLength(i: Instruction)
    requires ValidInstruction(i)
    ensures InstructionByteSize(i) == |SerializeInstruction(i)|
  {
    hide ValidKv, SerializeKv, ValidServer, SerializeServer, RepeatedField, KeysByteSize, ServersByteSize, MessageSize;
    GroupLength(i, 1);
    GroupLength(i, 2);
    GroupLength(i, 3);
    GroupLength(i, 4);
    GroupLength(i, 5);
    GroupLength(i, 6);
    KeysLength(1, i.getKeys);
    KeysLength(2, i.setKeys);
    KeysLength(3, i.incrKeys);
    ServersLength(i.servers);
    StatsLength(i.stats);
  }
}
