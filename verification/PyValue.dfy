/**
 How the Python client turns a value into bytes and flags and back.  Pickling, zlib and number
 formatting are foreign code; they enter as functions with the laws they are trusted to obey.
 */
module PyValue {
  import opened Wire
  import opened Seqs

  // Everything that is not a string, bool, int or long is pickled; None is one such value.
  datatype Value<O> = Str(s: Bytes) | Boolean(b: bool) | Int(n: int) | Long(n: int) | Object(o: O) | NoneValue

  const BUFFER_LEN := 65536
  const COMPRESS_ABOVE := 3072

  const FLAG_PICKLE := 1
  const FLAG_INTEGER := 2
  const FLAG_LONG := 4
  const FLAG_COMPRESSED := 8
  const FLAG_BOOL := 16

  predicate Has(flags: nat, flag: nat)
    requires flag > 0
  {
    (flags / flag) % 2 == 1
  }

  // `inflated` lists what successive inflate calls write; None is a stream zlib rejects.
  datatype Library<!O> = Library(
    dumps: Value<O> -> Bytes, loads: Bytes -> Value<O>,
    compress: Bytes -> Bytes, inflated: Bytes -> Option<seq<Bytes>>,
    format: int -> Bytes, parse: Bytes -> int)

  // Every call but the last fills its buffer.
  predicate Chunks(cs: seq<Bytes>, x: Bytes) {
    && cs != [] && Flatten(cs) == x
    && (forall i :: 0 <= i < |cs| - 1 ==> |cs[i]| == BUFFER_LEN)
    && |cs[|cs| - 1]| <= BUFFER_LEN
  }

  ghost predicate Lawful<O(!new)>(lib: Library<O>) {
    && (forall v :: lib.loads(lib.dumps(v)) == v)
    && (forall n :: lib.format(n) != [] && lib.parse(lib.format(n)) == n)
    && (forall x :: lib.inflated(lib.compress(x)).Some? && Chunks(lib.inflated(lib.compress(x)).value, x))
  }

  // ---------------------------------------------------------------- reassembly

  lemma {:induction false} FlattenLength(cs: seq<Bytes>)
    requires forall i :: 0 <= i < |cs| - 1 ==> |cs[i]| == BUFFER_LEN
    ensures cs != [] ==> |Flatten(cs)| == BUFFER_LEN * (|cs| - 1) + |cs[|cs| - 1]|
    decreases |cs|
  {
    if |cs| > 1 {
      FlattenLength(cs[..|cs| - 1]);
    } else if |cs| == 1 {
      assert Flatten(cs[..0]) == [];
    }
  }

  /**
   What the copy loop makes of the chunks.  The total is narrowed to int: at 2^31 bytes or more either
   resizing to a negative size throws, or the output is too short and the loop asks for a position
   past its end; so it does when the last chunk is empty.  None is the exception.
   */
  function Rebuilt(cs: seq<Bytes>): Option<Bytes>
    requires cs != []
  {
    if |Flatten(cs)| >= TWO_31 || cs[|cs| - 1] == [] then None else Some(Flatten(cs))
  }

  /** The copy loop over the chunk buffers; when it ends without an exception no byte is left to copy. */
  method Reassemble(cs: seq<Bytes>, x: Bytes) returns (output: Option<Bytes>)
    requires Chunks(cs, x)
    ensures output == Rebuilt(cs)
  {
    hide Flatten, Narrow32;
    var total := Narrow32(|x|);
    NarrowMeans(|x|);
    if total < 0 {
      return None;
    }
    var out, left, i: nat := [], total, 0;
    FlattenNothing(cs);
    FlattenLength(cs);
    while i < |cs|
      invariant i <= |cs| && |out| + left == total && left >= 0
      invariant left > 0 ==> |out| == BUFFER_LEN * i
      invariant i > 0 ==> BUFFER_LEN * (i - 1) < total
      invariant |x| < TWO_31 ==> out == Flatten(cs[..i])
    {
      FlattenNext(cs, i);
      ChunkSize(cs, x, i);
      if |out| >= total {
        return None;
      }
      var size := if left < BUFFER_LEN then left else BUFFER_LEN;
      out := out + cs[i][..size];
      left := left - size;
      i := i + 1;
    }
    assert cs[..|cs|] == cs;
    output := Some(out);
  }

  lemma NarrowMeans(n: nat)
    ensures n < TWO_31 ==> Narrow32(n) == n
    ensures n >= TWO_31 ==> Narrow32(n) <= n - TWO_32
    ensures Narrow32(n) < TWO_31
  {
  }

  // What is left to copy is in the chunks from i on.
  lemma ChunkSize(cs: seq<Bytes>, x: Bytes, i: nat)
    requires Chunks(cs, x) && i < |cs|
    ensures |cs[i]| == (if |x| - BUFFER_LEN * i < BUFFER_LEN then |x| - BUFFER_LEN * i else BUFFER_LEN)
    ensures |Flatten(cs[..i])| == BUFFER_LEN * i
  {
    hide Flatten;
    FlattenLength(cs);
    if i > 0 {
      FlattenLength(cs[..i]);
      assert cs[..i][i - 1] == cs[i - 1];
    } else {
      FlattenNothing(cs);
    }
  }

  /** Data whose length is no multiple of the buffer never ends in an empty chunk. */
  lemma LastChunkNonEmpty(cs: seq<Bytes>, x: Bytes)
    requires Chunks(cs, x) && |x| % BUFFER_LEN != 0
    ensures cs[|cs| - 1] != []
  {
    FlattenLength(cs);
    if cs[|cs| - 1] == [] {
      Multiple(|cs| - 1);
      assert false;
    }
  }

  lemma Multiple(n: nat)
    ensures (BUFFER_LEN * n) % BUFFER_LEN == 0
  {
  }

  // ---------------------------------------------------------------- encoding and decoding

  function Representation<O>(lib: Library<O>, v: Value<O>): Bytes {
    match v
    case Str(s) => s
    case Boolean(b) => lib.format(if b then 1 else 0)
    case Int(n) => lib.format(n)
    case Long(n) => lib.format(n)
    case Object(_) => lib.dumps(v)
    case NoneValue => lib.dumps(v)
  }

  function TypeFlag<O>(v: Value<O>): nat {
    match v
    case Str(_) => 0
    case Boolean(_) => FLAG_BOOL
    case Int(_) => FLAG_INTEGER
    case Long(_) => FLAG_LONG
    case Object(_) => FLAG_PICKLE
    case NoneValue => FLAG_PICKLE
  }

  predicate IsCompressed<O>(lib: Library<O>, v: Value<O>) {
    (v.Str? || v.Object? || v.NoneValue?) && |Representation(lib, v)| > COMPRESS_ABOVE
  }

  // The value and flags written into the key-value entry.
  function PrepareValue<O>(lib: Library<O>, v: Value<O>): (Bytes, nat) {
    var rep := Representation(lib, v);
    if IsCompressed(lib, v) then (lib.compress(rep), TypeFlag(v) + FLAG_COMPRESSED) else (rep, TypeFlag(v))
  }

  datatype Decompressed = Rejected | Thrown | Inflated(bytes: Bytes)

  function Decompress<O>(lib: Library<O>, data: Bytes): Decompressed {
    match lib.inflated(data)
    case None => Rejected
    case Some(cs) =>
      if cs == [] then Rejected
      else
        match Rebuilt(cs)
        case None => Thrown
        case Some(bytes) => Inflated(bytes)
  }

  // None: an exception.
  function Restore<O>(lib: Library<O>, data: Bytes, flags: nat): Option<Value<O>> {
    if !Has(flags, FLAG_COMPRESSED) then Some(Decode(lib, data, [], flags))
    else
      match Decompress(lib, data)
      case Rejected => Some(NoneValue)
      case Thrown => None
      case Inflated(decomp) => Some(Decode(lib, data, decomp, flags))
  }

  function Decode<O>(lib: Library<O>, data: Bytes, decomp: Bytes, flags: nat): Value<O> {
    if Has(flags, FLAG_BOOL) then
      if data == [] then Boolean(false) else Boolean(lib.parse(data) != 0)
    else if Has(flags, FLAG_INTEGER) then
      if data == [] then Int(0) else Int(lib.parse(data))
    else if Has(flags, FLAG_LONG) then
      if data == [] then Int(0) else Long(lib.parse(data))
    else if Has(flags, FLAG_PICKLE) then
      if decomp == [] then lib.loads(data) else lib.loads(decomp)
    else if decomp == [] && data != [] then Str(data)
    else if decomp != [] then Str(decomp)
    else NoneValue
  }

  lemma FlagsOf<O>(v: Value<O>, compressed: bool)
    ensures var flags := TypeFlag(v) + if compressed then FLAG_COMPRESSED else 0;
      && Has(flags, FLAG_COMPRESSED) == compressed
      && Has(flags, FLAG_BOOL) == v.Boolean? && Has(flags, FLAG_INTEGER) == v.Int?
      && Has(flags, FLAG_LONG) == v.Long? && Has(flags, FLAG_PICKLE) == (v.Object? || v.NoneValue?)
  {
  }

  // What the reading side must be able to cope with: a size an int can hold, and no empty last chunk.
  ghost predicate Reassembles<O>(lib: Library<O>, v: Value<O>) {
    IsCompressed(lib, v) ==>
      var rep := Representation(lib, v);
      var cs := lib.inflated(lib.compress(rep));
      |rep| < TWO_31 && cs.Some? && cs.value != [] && cs.value[|cs.value| - 1] != []
  }

  lemma DecompressMeans<O(!new)>(lib: Library<O>, v: Value<O>)
    requires Lawful(lib) && IsCompressed(lib, v)
    ensures var rep := Representation(lib, v);
      Decompress(lib, lib.compress(rep)) == if Reassembles(lib, v) then Inflated(rep) else Thrown
  {
    hide Flatten;
    var rep := Representation(lib, v);
    assert Chunks(lib.inflated(lib.compress(rep)).value, rep);
  }

  /** What the reading side makes of the digit 1, and of nothing, under each type flag. */
  lemma RestoreByFlags<O(!new)>(lib: Library<O>)
    requires lib.parse([49]) == 1
    ensures Restore(lib, [49], 16) == Some(Boolean(true)) && Restore(lib, [], 16) == Some(Boolean(false))
    ensures Restore(lib, [49], 2) == Some(Int(1)) && Restore(lib, [], 2) == Some(Int(0))
    ensures Restore(lib, [49], 4) == Some(Long(1)) && Restore(lib, [], 4) == Some(Int(0))
    ensures Restore(lib, [49], 1) == Some(lib.loads([49]))
    ensures Restore(lib, [49], 0) == Some(Str([49])) && Restore(lib, [], 0) == Some(NoneValue)
  {
  }

  /** The flags the writing side sets; strings and pickles of more than 3072 bytes are compressed. */
  lemma FlagsWritten<O(!new)>(lib: Library<O>, v: Value<O>)
    ensures var (data, flags) := PrepareValue(lib, v);
      match v
      case Boolean(b) => data == lib.format(if b then 1 else 0) && flags == 16
      case Int(n) => data == lib.format(n) && flags == 2
      case Long(n) => data == lib.format(n) && flags == 4
      case Str(s) =>
        if |s| > 3072 then data == lib.compress(s) && flags == 8 else data == s && flags == 0
      case _ =>
        var pickle := lib.dumps(v);
        if |pickle| > 3072 then data == lib.compress(pickle) && flags == 9 else data == pickle && flags == 1
  {
  }

  /**
   Reading back what was written returns the value, except for the empty string, which comes back
   as None, and for a compressed value of 2^31 bytes or more or one whose last inflated chunk is
   empty, which throw.
   */
  lemma RestoreAfterPrepareIff<O(!new)>(lib: Library<O>, v: Value<O>)
    requires Lawful(lib)
    ensures var (data, flags) := PrepareValue(lib, v);
      && (Restore(lib, data, flags) == Some(v) <==> v != Str([]) && Reassembles(lib, v))
      && (v == Str([]) ==> Restore(lib, data, flags) == Some(NoneValue))
      && (!Reassembles(lib, v) ==> Restore(lib, data, flags) == None)
  {
    hide Has, Decompress;
    FlagsOf(v, IsCompressed(lib, v));
    var rep := Representation(lib, v);
    assert v.Object? || v.NoneValue? ==> lib.loads(rep) == v;
    if IsCompressed(lib, v) {
      DecompressMeans(lib, v);
    }
  }

  /** In particular every non-empty value survives whose representation is no multiple of 64 KiB. */
  lemma RestoreAfterPrepare<O(!new)>(lib: Library<O>, v: Value<O>)
    requires Lawful(lib) && v != Str([]) && |Representation(lib, v)| % 65536 != 0
    requires IsCompressed(lib, v) ==> |Representation(lib, v)| < TWO_31
    ensures var (data, flags) := PrepareValue(lib, v);
      Restore(lib, data, flags) == Some(v)
  {
    RestoreAfterPrepareIff(lib, v);
    if IsCompressed(lib, v) {
      var rep := Representation(lib, v);
      assert Chunks(lib.inflated(lib.compress(rep)).value, rep);
      LastChunkNonEmpty(lib.inflated(lib.compress(rep)).value, rep);
    }
  }

  /** A compressible string of 2^31 + 1 bytes is lost, although its last chunk is not empty. */
  lemma HugeStringThrows<O(!new)>(lib: Library<O>, s: Bytes)
    requires Lawful(lib) && |s| == TWO_31 + 1
    ensures var (data, flags) := PrepareValue(lib, Str(s));
      Restore(lib, data, flags) == None
    ensures var cs := lib.inflated(lib.compress(s)).value; cs != [] && cs[|cs| - 1] != []
  {
    RestoreAfterPrepareIff(lib, Str(s));
    assert Chunks(lib.inflated(lib.compress(s)).value, s);
    LastChunkNonEmpty(lib.inflated(lib.compress(s)).value, s);
  }
}
