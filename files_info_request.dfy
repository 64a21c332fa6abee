/**
 * The file-inventory request of peer recovery: sent by the recovery source at the start
 * of file copying, it names the files the target will receive with their sizes, the
 * files the target already holds with theirs, and the number of translog operations to
 * expect afterwards.
 *
 * The wire is modelled one level above bytes: a stream is the sequence of primitive
 * values written to it (`Token`s). `StreamOutput`'s and `StreamInput`'s primitives are
 * taken to round-trip: a read returns the value of the matching write, and a read of the
 * wrong kind of value, or past the end, fails.
 */
module RecoveryFilesInfo {
  import opened Wrappers

  newtype int32 = x: int | -0x8000_0000 <= x < 0x8000_0000
  newtype int64 = x: int | -0x8000_0000_0000_0000 <= x < 0x8000_0000_0000_0000

  /** A shard: its index's name and uuid, and its number within the index. */
  datatype ShardId = ShardId(indexName: string, indexUuid: string, id: int32)

  /** One primitive value on the wire. */
  datatype Token =
    | Header(requestSeqNo: int64)   // RecoveryTransportRequest's own fields
    | Long(long: int64)             // writeLong, fixed width
    | VInt(vint: int32)             // writeVInt
    | VLong(vlong: int64)           // writeVLong
    | Str(str: string)              // writeString
    | Shard(shard: ShardId)         // ShardId.writeTo

  /** Why reading a request fails. */
  datatype DecodeError =
    | EndOfStream(pos: nat)         // EOFException: a read past the last value
    | Corrupt(pos: nat)             // the value at `pos` is not of the kind read
    | NegativeSize(size: int32)     // IllegalArgumentException from `new ArrayList<>(size)`

  /** The contents of a request. */
  datatype FilesInfo = FilesInfo(
    requestSeqNo: int64,
    recoveryId: int64,
    shardId: ShardId,
    phase1FileNames: seq<string>,
    phase1FileSizes: seq<int64>,
    phase1ExistingFileNames: seq<string>,
    phase1ExistingFileSizes: seq<int64>,
    totalTranslogOps: int32)

  /** Every list fits a Java `int` size. No relation between the lists' lengths is required. */
  predicate ListsFit(m: FilesInfo) {
    |m.phase1FileNames| < 0x8000_0000 && |m.phase1FileSizes| < 0x8000_0000 &&
    |m.phase1ExistingFileNames| < 0x8000_0000 && |m.phase1ExistingFileSizes| < 0x8000_0000
  }

  // ----- encoding -----

  function EncodeNames(names: seq<string>): (ts: seq<Token>)
    ensures |ts| == |names|
  {
    seq(|names|, i requires 0 <= i < |names| => Str(names[i]))
  }

  function EncodeSizes(sizes: seq<int64>): (ts: seq<Token>)
    ensures |ts| == |sizes|
  {
    seq(|sizes|, i requires 0 <= i < |sizes| => VLong(sizes[i]))
  }

  /** A list on the wire: its size as a var-int, then its elements. */
  function EncodeNameList(names: seq<string>): (ts: seq<Token>)
    requires |names| < 0x8000_0000
    ensures |ts| == 1 + |names|
  {
    [VInt(|names| as int32)] + EncodeNames(names)
  }

  function EncodeSizeList(sizes: seq<int64>): (ts: seq<Token>)
    requires |sizes| < 0x8000_0000
    ensures |ts| == 1 + |sizes|
  {
    [VInt(|sizes| as int32)] + EncodeSizes(sizes)
  }

  /** The four lists, in the order they are written and read. */
  datatype FileLists = FileLists(names: seq<string>, sizes: seq<int64>, existingNames: seq<string>, existingSizes: seq<int64>)

  function ListsOf(m: FilesInfo): FileLists {
    FileLists(m.phase1FileNames, m.phase1FileSizes, m.phase1ExistingFileNames, m.phase1ExistingFileSizes)
  }

  function EncodeFileLists(l: FileLists): seq<Token>
    requires |l.names| < 0x8000_0000 && |l.sizes| < 0x8000_0000
    requires |l.existingNames| < 0x8000_0000 && |l.existingSizes| < 0x8000_0000
  {
    EncodeNameList(l.names) + (EncodeSizeList(l.sizes) + (EncodeNameList(l.existingNames) + EncodeSizeList(l.existingSizes)))
  }

  /**
   * What `writeTo` writes: the header, the recovery id as a fixed-width long, the shard,
   * then each of the four lists as its size followed by its elements, and last the
   * operation count as a var-int.
   */
  function Encode(m: FilesInfo): seq<Token>
    requires ListsFit(m)
  {
    [Header(m.requestSeqNo), Long(m.recoveryId), Shard(m.shardId)] + EncodeFileLists(ListsOf(m)) + [VInt(m.totalTranslogOps)]
  }

  // ----- decoding: each read gives the value and the position after it -----

  function ReadHeaderAt(ts: seq<Token>, pos: nat): Result<(int64, nat), DecodeError> {
    if pos >= |ts| then Failure(EndOfStream(pos))
    else if ts[pos].Header? then Success((ts[pos].requestSeqNo, pos + 1))
    else Failure(Corrupt(pos))
  }

  function ReadLongAt(ts: seq<Token>, pos: nat): Result<(int64, nat), DecodeError> {
    if pos >= |ts| then Failure(EndOfStream(pos))
    else if ts[pos].Long? then Success((ts[pos].long, pos + 1))
    else Failure(Corrupt(pos))
  }

  function ReadVIntAt(ts: seq<Token>, pos: nat): Result<(int32, nat), DecodeError> {
    if pos >= |ts| then Failure(EndOfStream(pos))
    else if ts[pos].VInt? then Success((ts[pos].vint, pos + 1))
    else Failure(Corrupt(pos))
  }

  function ReadVLongAt(ts: seq<Token>, pos: nat): Result<(int64, nat), DecodeError> {
    if pos >= |ts| then Failure(EndOfStream(pos))
    else if ts[pos].VLong? then Success((ts[pos].vlong, pos + 1))
    else Failure(Corrupt(pos))
  }

  function ReadStringAt(ts: seq<Token>, pos: nat): Result<(string, nat), DecodeError> {
    if pos >= |ts| then Failure(EndOfStream(pos))
    else if ts[pos].Str? then Success((ts[pos].str, pos + 1))
    else Failure(Corrupt(pos))
  }

  function ReadShardIdAt(ts: seq<Token>, pos: nat): Result<(ShardId, nat), DecodeError> {
    if pos >= |ts| then Failure(EndOfStream(pos))
    else if ts[pos].Shard? then Success((ts[pos].shard, pos + 1))
    else Failure(Corrupt(pos))
  }

  /** A list's declared size; a negative one makes `new ArrayList<>(size)` throw. */
  function ReadSizeAt(ts: seq<Token>, pos: nat): Result<(nat, nat), DecodeError> {
    var (size, next) :- ReadVIntAt(ts, pos);
    if size < 0 then Failure(NegativeSize(size)) else Success((size as nat, next))
  }

  /** Reads `remaining` more names, appending them to `acc`. */
  function ReadNamesAt(ts: seq<Token>, pos: nat, remaining: nat, acc: seq<string>): Result<(seq<string>, nat), DecodeError>
    decreases remaining
  {
    if remaining == 0 then Success((acc, pos))
    else
      var (name, next) :- ReadStringAt(ts, pos);
      ReadNamesAt(ts, next, remaining - 1, acc + [name])
  }

  /** Reads `remaining` more sizes, appending them to `acc`. */
  function ReadSizesAt(ts: seq<Token>, pos: nat, remaining: nat, acc: seq<int64>): Result<(seq<int64>, nat), DecodeError>
    decreases remaining
  {
    if remaining == 0 then Success((acc, pos))
    else
      var (size, next) :- ReadVLongAt(ts, pos);
      ReadSizesAt(ts, next, remaining - 1, acc + [size])
  }

  function ReadNameListAt(ts: seq<Token>, pos: nat): Result<(seq<string>, nat), DecodeError> {
    var (size, next) :- ReadSizeAt(ts, pos);
    ReadNamesAt(ts, next, size, [])
  }

  function ReadSizeListAt(ts: seq<Token>, pos: nat): Result<(seq<int64>, nat), DecodeError> {
    var (size, next) :- ReadSizeAt(ts, pos);
    ReadSizesAt(ts, next, size, [])
  }

  /** The four lists, each read as its size then that many elements. */
  function ReadFileListsAt(ts: seq<Token>, pos: nat): Result<(FileLists, nat), DecodeError> {
    var (names, p0) :- ReadNameListAt(ts, pos);
    var (sizes, p1) :- ReadSizeListAt(ts, p0);
    var (existingNames, p2) :- ReadNameListAt(ts, p1);
    var (existingSizes, p3) :- ReadSizeListAt(ts, p2);
    Success((FileLists(names, sizes, existingNames, existingSizes), p3))
  }

  /** What the stream constructor reads from position `pos`: the request and the position after it. */
  function DecodeAt(ts: seq<Token>, pos: nat): Result<(FilesInfo, nat), DecodeError> {
    var (requestSeqNo, p0) :- ReadHeaderAt(ts, pos);
    var (recoveryId, p1) :- ReadLongAt(ts, p0);
    var (shardId, p2) :- ReadShardIdAt(ts, p1);
    var (lists, p3) :- ReadFileListsAt(ts, p2);
    var (ops, p4) :- ReadVIntAt(ts, p3);
    Success((FilesInfo(requestSeqNo, recoveryId, shardId, lists.names, lists.sizes, lists.existingNames, lists.existingSizes, ops), p4))
  }

  // ----- the streams -----

  /** An output stream: the values written to it so far, in order. */
  class StreamOutput {
    var tokens: seq<Token>

    constructor ()
      ensures tokens == []
    {
      tokens := [];
    }

    method WriteHeader(requestSeqNo: int64)
      modifies this
      ensures tokens == old(tokens) + [Header(requestSeqNo)]
    {
      tokens := tokens + [Header(requestSeqNo)];
    }

    method WriteLong(v: int64)
      modifies this
      ensures tokens == old(tokens) + [Long(v)]
    {
      tokens := tokens + [Long(v)];
    }

    method WriteVInt(v: int32)
      modifies this
      ensures tokens == old(tokens) + [VInt(v)]
    {
      tokens := tokens + [VInt(v)];
    }

    method WriteVLong(v: int64)
      modifies this
      ensures tokens == old(tokens) + [VLong(v)]
    {
      tokens := tokens + [VLong(v)];
    }

    method WriteString(v: string)
      modifies this
      ensures tokens == old(tokens) + [Str(v)]
    {
      tokens := tokens + [Str(v)];
    }

    method WriteShardId(v: ShardId)
      modifies this
      ensures tokens == old(tokens) + [Shard(v)]
    {
      tokens := tokens + [Shard(v)];
    }
  }

  /** An input stream over the values of `tokens`, read from `pos` on. */
  class StreamInput {
    const tokens: seq<Token>
    var pos: nat

    constructor (tokens: seq<Token>)
      ensures this.tokens == tokens && pos == 0
    {
      this.tokens := tokens;
      pos := 0;
    }

    method ReadHeader() returns (r: Result<int64, DecodeError>)
      modifies this
      ensures var d := ReadHeaderAt(tokens, old(pos));
        (d.Success? ==> r == Success(d.value.0) && pos == d.value.1) && (d.Failure? ==> r == Failure(d.error))
    {
      var d := ReadHeaderAt(tokens, pos);
      if d.Failure? {
        return Failure(d.error);
      }
      r, pos := Success(d.value.0), d.value.1;
    }

    method ReadLong() returns (r: Result<int64, DecodeError>)
      modifies this
      ensures var d := ReadLongAt(tokens, old(pos));
        (d.Success? ==> r == Success(d.value.0) && pos == d.value.1) && (d.Failure? ==> r == Failure(d.error))
    {
      var d := ReadLongAt(tokens, pos);
      if d.Failure? {
        return Failure(d.error);
      }
      r, pos := Success(d.value.0), d.value.1;
    }

    method ReadVInt() returns (r: Result<int32, DecodeError>)
      modifies this
      ensures var d := ReadVIntAt(tokens, old(pos));
        (d.Success? ==> r == Success(d.value.0) && pos == d.value.1) && (d.Failure? ==> r == Failure(d.error))
    {
      var d := ReadVIntAt(tokens, pos);
      if d.Failure? {
        return Failure(d.error);
      }
      r, pos := Success(d.value.0), d.value.1;
    }

    method ReadVLong() returns (r: Result<int64, DecodeError>)
      modifies this
      ensures var d := ReadVLongAt(tokens, old(pos));
        (d.Success? ==> r == Success(d.value.0) && pos == d.value.1) && (d.Failure? ==> r == Failure(d.error))
    {
      var d := ReadVLongAt(tokens, pos);
      if d.Failure? {
        return Failure(d.error);
      }
      r, pos := Success(d.value.0), d.value.1;
    }

    method ReadString() returns (r: Result<string, DecodeError>)
      modifies this
      ensures var d := ReadStringAt(tokens, old(pos));
        (d.Success? ==> r == Success(d.value.0) && pos == d.value.1) && (d.Failure? ==> r == Failure(d.error))
    {
      var d := ReadStringAt(tokens, pos);
      if d.Failure? {
        return Failure(d.error);
      }
      r, pos := Success(d.value.0), d.value.1;
    }

    method ReadShardId() returns (r: Result<ShardId, DecodeError>)
      modifies this
      ensures var d := ReadShardIdAt(tokens, old(pos));
        (d.Success? ==> r == Success(d.value.0) && pos == d.value.1) && (d.Failure? ==> r == Failure(d.error))
    {
      var d := ReadShardIdAt(tokens, pos);
      if d.Failure? {
        return Failure(d.error);
      }
      r, pos := Success(d.value.0), d.value.1;
    }
  }

  /** Reads a name list as the stream constructor does: a count, then that many strings. */
  method ReadNameList(input: StreamInput) returns (r: Result<seq<string>, DecodeError>)
    modifies input
    ensures var d := ReadNameListAt(input.tokens, old(input.pos));
      (d.Success? ==> r == Success(d.value.0) && input.pos == d.value.1) && (d.Failure? ==> r == Failure(d.error))
  {
    ghost var ts := input.tokens;
    var size :- input.ReadVInt();
    if size < 0 {
      return Failure(NegativeSize(size));
    }
    var names: seq<string> := [];
    ghost var first := input.pos;
    for i := 0 to size as int
      invariant ReadNamesAt(ts, first, size as nat, []) == ReadNamesAt(ts, input.pos, size as int - i, names)
    {
      var name :- input.ReadString();
      names := names + [name];
    }
    return Success(names);
  }

  /** Reads a size list as the stream constructor does: a count, then that many var-longs. */
  method ReadSizeList(input: StreamInput) returns (r: Result<seq<int64>, DecodeError>)
    modifies input
    ensures var d := ReadSizeListAt(input.tokens, old(input.pos));
      (d.Success? ==> r == Success(d.value.0) && input.pos == d.value.1) && (d.Failure? ==> r == Failure(d.error))
  {
    ghost var ts := input.tokens;
    var size :- input.ReadVInt();
    if size < 0 {
      return Failure(NegativeSize(size));
    }
    var sizes: seq<int64> := [];
    ghost var first := input.pos;
    for i := 0 to size as int
      invariant ReadSizesAt(ts, first, size as nat, []) == ReadSizesAt(ts, input.pos, size as int - i, sizes)
    {
      var fileSize :- input.ReadVLong();
      sizes := sizes + [fileSize];
    }
    return Success(sizes);
  }

  lemma AppendAssoc<T>(a: seq<T>, b: seq<T>, c: seq<T>)
    ensures a + (b + c) == a + b + c
  {
  }

  /** The encoding, piece by piece in wire order. */
  lemma EncodeInOrder(m: FilesInfo)
    requires ListsFit(m)
    ensures Encode(m) == [Header(m.requestSeqNo), Long(m.recoveryId), Shard(m.shardId)]
      + EncodeNameList(m.phase1FileNames) + EncodeSizeList(m.phase1FileSizes)
      + EncodeNameList(m.phase1ExistingFileNames) + EncodeSizeList(m.phase1ExistingFileSizes)
      + [VInt(m.totalTranslogOps)]
  {
  }

  /** One of `writeTo`'s list loops: the size as a var-int, then each name as a string. */
  method WriteNameList(out: StreamOutput, names: seq<string>)
    requires |names| < 0x8000_0000
    modifies out
    ensures out.tokens == old(out.tokens) + EncodeNameList(names)
  {
    out.WriteVInt(|names| as int32);
    for i := 0 to |names|
      invariant out.tokens == old(out.tokens) + [VInt(|names| as int32)] + EncodeNames(names[..i])
    {
      assert EncodeNames(names[..i + 1]) == EncodeNames(names[..i]) + [Str(names[i])];
      out.WriteString(names[i]);
    }
    assert names[..|names|] == names;
  }

  /** One of `writeTo`'s list loops: the size as a var-int, then each size as a var-long. */
  method WriteSizeList(out: StreamOutput, sizes: seq<int64>)
    requires |sizes| < 0x8000_0000
    modifies out
    ensures out.tokens == old(out.tokens) + EncodeSizeList(sizes)
  {
    out.WriteVInt(|sizes| as int32);
    for i := 0 to |sizes|
      invariant out.tokens == old(out.tokens) + [VInt(|sizes| as int32)] + EncodeSizes(sizes[..i])
    {
      assert EncodeSizes(sizes[..i + 1]) == EncodeSizes(sizes[..i]) + [VLong(sizes[i])];
      out.WriteVLong(sizes[i]);
    }
    assert sizes[..|sizes|] == sizes;
  }

  // ----- the request -----

  class RecoveryFilesInfoRequest {
    var requestSeqNo: int64
    var recoveryId: int64
    var shardId: ShardId
    var phase1FileNames: seq<string>
    var phase1FileSizes: seq<int64>
    var phase1ExistingFileNames: seq<string>
    var phase1ExistingFileSizes: seq<int64>
    var totalTranslogOps: int32

    function Value(): FilesInfo
      reads this
    {
      FilesInfo(requestSeqNo, recoveryId, shardId, phase1FileNames, phase1FileSizes,
        phase1ExistingFileNames, phase1ExistingFileSizes, totalTranslogOps)
    }

    /** The field constructor: stores what it is given, with no check on the lists. */
    constructor (recoveryId: int64, requestSeqNo: int64, shardId: ShardId, phase1FileNames: seq<string>,
                 phase1FileSizes: seq<int64>, phase1ExistingFileNames: seq<string>, phase1ExistingFileSizes: seq<int64>,
                 totalTranslogOps: int32)
      ensures Value() == FilesInfo(requestSeqNo, recoveryId, shardId, phase1FileNames, phase1FileSizes,
        phase1ExistingFileNames, phase1ExistingFileSizes, totalTranslogOps)
    {
      this.requestSeqNo := requestSeqNo;
      this.recoveryId := recoveryId;
      this.shardId := shardId;
      this.phase1FileNames := phase1FileNames;
      this.phase1FileSizes := phase1FileSizes;
      this.phase1ExistingFileNames := phase1ExistingFileNames;
      this.phase1ExistingFileSizes := phase1ExistingFileSizes;
      this.totalTranslogOps := totalTranslogOps;
    }

    /** `recoveryId()`. */
    function RecoveryId(): (r: int64)
      reads this
      ensures r == Value().recoveryId
    {
      recoveryId
    }

    /** `shardId()`. */
    function GetShardId(): (r: ShardId)
      reads this
      ensures r == Value().shardId
    {
      shardId
    }

    /** The stream constructor: reads a request, or fails with the first read that does. */
    static method ReadFrom(input: StreamInput) returns (r: Result<RecoveryFilesInfoRequest, DecodeError>)
      modifies input
      ensures var d := DecodeAt(input.tokens, old(input.pos));
        && (r.Success? <==> d.Success?)
        && (r.Failure? ==> r.error == d.error)
        && (r.Success? ==> fresh(r.value) && r.value.Value() == d.value.0 && input.pos == d.value.1)
    {
      ghost var ts := input.tokens;
      var requestSeqNo :- input.ReadHeader();
      var recoveryId :- input.ReadLong();
      var shardId :- input.ReadShardId();
      ghost var listsStart := input.pos;

      var names :- ReadNameList(input);
      var sizes :- ReadSizeList(input);
      var existingNames :- ReadNameList(input);
      var existingSizes :- ReadSizeList(input);
      assert ReadFileListsAt(ts, listsStart) == Success((FileLists(names, sizes, existingNames, existingSizes), input.pos));

      var ops :- input.ReadVInt();
      var request := new RecoveryFilesInfoRequest(recoveryId, requestSeqNo, shardId, names, sizes, existingNames, existingSizes, ops);
      r := Success(request);
    }

    /** `writeTo`: writes the request's values in wire order. */
    method WriteTo(out: StreamOutput)
      requires ListsFit(Value())
      modifies out
      ensures out.tokens == old(out.tokens) + Encode(Value())
    {
      ghost var o := out.tokens;
      ghost var head := [Header(requestSeqNo), Long(recoveryId), Shard(shardId)];
      ghost var b1, b2 := EncodeNameList(phase1FileNames), EncodeSizeList(phase1FileSizes);
      ghost var b3, b4 := EncodeNameList(phase1ExistingFileNames), EncodeSizeList(phase1ExistingFileSizes);
      out.WriteHeader(requestSeqNo);
      out.WriteLong(recoveryId);
      out.WriteShardId(shardId);
      assert out.tokens == o + head;
      WriteNameList(out, phase1FileNames);
      AppendAssoc(o, head, b1);
      WriteSizeList(out, phase1FileSizes);
      AppendAssoc(o, head + b1, b2);
      WriteNameList(out, phase1ExistingFileNames);
      AppendAssoc(o, head + b1 + b2, b3);
      WriteSizeList(out, phase1ExistingFileSizes);
      AppendAssoc(o, head + b1 + b2 + b3, b4);
      assert out.tokens == o + (head + b1 + b2 + b3 + b4);
      AppendAssoc(o, head + b1 + b2 + b3 + b4, [VInt(totalTranslogOps)]);
      EncodeInOrder(Value());
      out.WriteVInt(totalTranslogOps);
    }
  }
}

module RecoveryFilesInfoProofs {
  import opened Wrappers
  import opened RecoveryFilesInfo

  lemma {:induction false} ReadNamesOfEncoded(ts: seq<Token>, pos: nat, names: seq<string>, acc: seq<string>)
    requires pos + |names| <= |ts| && ts[pos..pos + |names|] == EncodeNames(names)
    ensures ReadNamesAt(ts, pos, |names|, acc) == Success((acc + names, pos + |names|))
    decreases |names|
  {
    if names != [] {
      assert ts[pos] == EncodeNames(names)[0] == Str(names[0]);
      assert ReadStringAt(ts, pos) == Success((names[0], pos + 1));
      assert ts[pos + 1..pos + |names|] == ts[pos..pos + |names|][1..];
      assert EncodeNames(names)[1..] == EncodeNames(names[1..]);
      ReadNamesOfEncoded(ts, pos + 1, names[1..], acc + [names[0]]);
      assert acc + [names[0]] + names[1..] == acc + names;
      assert ReadNamesAt(ts, pos, |names|, acc) == ReadNamesAt(ts, pos + 1, |names| - 1, acc + [names[0]]);
    } else {
      assert acc + names == acc;
    }
  }

  lemma {:induction false} ReadSizesOfEncoded(ts: seq<Token>, pos: nat, sizes: seq<int64>, acc: seq<int64>)
    requires pos + |sizes| <= |ts| && ts[pos..pos + |sizes|] == EncodeSizes(sizes)
    ensures ReadSizesAt(ts, pos, |sizes|, acc) == Success((acc + sizes, pos + |sizes|))
    decreases |sizes|
  {
    if sizes != [] {
      assert ts[pos] == EncodeSizes(sizes)[0] == VLong(sizes[0]);
      assert ReadVLongAt(ts, pos) == Success((sizes[0], pos + 1));
      assert ts[pos + 1..pos + |sizes|] == ts[pos..pos + |sizes|][1..];
      assert EncodeSizes(sizes)[1..] == EncodeSizes(sizes[1..]);
      ReadSizesOfEncoded(ts, pos + 1, sizes[1..], acc + [sizes[0]]);
      assert acc + [sizes[0]] + sizes[1..] == acc + sizes;
      assert ReadSizesAt(ts, pos, |sizes|, acc) == ReadSizesAt(ts, pos + 1, |sizes| - 1, acc + [sizes[0]]);
    } else {
      assert acc + sizes == acc;
    }
  }

  lemma {:induction false} EncodedNamesOfRead(ts: seq<Token>, pos: nat, remaining: nat, acc: seq<string>)
    requires pos <= |ts|
    requires ReadNamesAt(ts, pos, remaining, acc).Success?
    ensures var (names, next) := ReadNamesAt(ts, pos, remaining, acc).value;
      && |names| == |acc| + remaining && names[..|acc|] == acc
      && next == pos + remaining <= |ts| && ts[pos..next] == EncodeNames(names[|acc|..])
    decreases remaining
  {
    if remaining > 0 {
      var name := ts[pos].str;
      assert ReadStringAt(ts, pos) == Success((name, pos + 1));
      assert ReadNamesAt(ts, pos, remaining, acc) == ReadNamesAt(ts, pos + 1, remaining - 1, acc + [name]);
      EncodedNamesOfRead(ts, pos + 1, remaining - 1, acc + [name]);
      var (names, next) := ReadNamesAt(ts, pos, remaining, acc).value;
      assert names[..|acc| + 1] == acc + [name];
      assert names[..|acc|] == (acc + [name])[..|acc|];
      assert ts[pos..next] == [ts[pos]] + ts[pos + 1..next];
      assert names[|acc|..] == [name] + names[|acc| + 1..];
      assert EncodeNames(names[|acc|..]) == [Str(name)] + EncodeNames(names[|acc| + 1..]);
    } else {
      assert ReadNamesAt(ts, pos, remaining, acc) == Success((acc, pos));
    }
  }

  lemma {:induction false} EncodedSizesOfRead(ts: seq<Token>, pos: nat, remaining: nat, acc: seq<int64>)
    requires pos <= |ts|
    requires ReadSizesAt(ts, pos, remaining, acc).Success?
    ensures var (sizes, next) := ReadSizesAt(ts, pos, remaining, acc).value;
      && |sizes| == |acc| + remaining && sizes[..|acc|] == acc
      && next == pos + remaining <= |ts| && ts[pos..next] == EncodeSizes(sizes[|acc|..])
    decreases remaining
  {
    if remaining > 0 {
      var size := ts[pos].vlong;
      assert ReadVLongAt(ts, pos) == Success((size, pos + 1));
      assert ReadSizesAt(ts, pos, remaining, acc) == ReadSizesAt(ts, pos + 1, remaining - 1, acc + [size]);
      EncodedSizesOfRead(ts, pos + 1, remaining - 1, acc + [size]);
      var (sizes, next) := ReadSizesAt(ts, pos, remaining, acc).value;
      assert sizes[..|acc| + 1] == acc + [size];
      assert sizes[..|acc|] == (acc + [size])[..|acc|];
      assert ts[pos..next] == [ts[pos]] + ts[pos + 1..next];
      assert sizes[|acc|..] == [size] + sizes[|acc| + 1..];
      assert EncodeSizes(sizes[|acc|..]) == [VLong(size)] + EncodeSizes(sizes[|acc| + 1..]);
    } else {
      assert ReadSizesAt(ts, pos, remaining, acc) == Success((acc, pos));
    }
  }

  /** A name list written as its size then its elements reads back as the same list, in order. */
  lemma NameListRoundTrip(ts: seq<Token>, pos: nat, names: seq<string>)
    requires |names| < 0x8000_0000
    requires pos + |EncodeNameList(names)| <= |ts| && ts[pos..pos + |EncodeNameList(names)|] == EncodeNameList(names)
    ensures ReadNameListAt(ts, pos) == Success((names, pos + |EncodeNameList(names)|))
  {
    assert ts[pos] == VInt(|names| as int32);
    assert ReadSizeAt(ts, pos) == Success((|names|, pos + 1));
    assert ts[pos + 1..pos + 1 + |names|] == ts[pos..pos + 1 + |names|][1..];
    ReadNamesOfEncoded(ts, pos + 1, names, []);
    assert [] + names == names;
    assert ReadNameListAt(ts, pos) == ReadNamesAt(ts, pos + 1, |names|, []);
  }

  lemma SizeListRoundTrip(ts: seq<Token>, pos: nat, sizes: seq<int64>)
    requires |sizes| < 0x8000_0000
    requires pos + |EncodeSizeList(sizes)| <= |ts| && ts[pos..pos + |EncodeSizeList(sizes)|] == EncodeSizeList(sizes)
    ensures ReadSizeListAt(ts, pos) == Success((sizes, pos + |EncodeSizeList(sizes)|))
  {
    assert ts[pos] == VInt(|sizes| as int32);
    assert ReadSizeAt(ts, pos) == Success((|sizes|, pos + 1));
    assert ts[pos + 1..pos + 1 + |sizes|] == ts[pos..pos + 1 + |sizes|][1..];
    ReadSizesOfEncoded(ts, pos + 1, sizes, []);
    assert [] + sizes == sizes;
    assert ReadSizeListAt(ts, pos) == ReadSizesAt(ts, pos + 1, |sizes|, []);
  }

  /** A negative count is refused before any element is read: `new ArrayList<>(size)` throws. */
  lemma NegativeCountRejected(ts: seq<Token>, pos: nat, size: int32)
    requires pos < |ts| && ts[pos] == VInt(size) && size < 0
    ensures ReadNameListAt(ts, pos) == Failure(NegativeSize(size))
    ensures ReadSizeListAt(ts, pos) == Failure(NegativeSize(size))
  {
  }

  /**
   * `e` sits in `ts` from `pos` on. It says what a slice equality says, but being
   * recursive it unfolds only as far as a proof asks, which keeps the proofs over
   * several lists small.
   */
  ghost predicate Holds(ts: seq<Token>, pos: nat, e: seq<Token>)
    decreases |e|
  {
    if e == [] then pos <= |ts| else pos < |ts| && ts[pos] == e[0] && Holds(ts, pos + 1, e[1..])
  }

  lemma {:induction false} HoldsIsSlice(ts: seq<Token>, pos: nat, e: seq<Token>)
    ensures Holds(ts, pos, e) <==> pos + |e| <= |ts| && ts[pos..pos + |e|] == e
    decreases |e|
  {
    if e != [] {
      HoldsIsSlice(ts, pos + 1, e[1..]);
      if pos + |e| <= |ts| {
        assert ts[pos..pos + |e|] == [ts[pos]] + ts[pos + 1..pos + |e|];
        assert e == [e[0]] + e[1..];
      }
    }
  }

  lemma {:induction false} HoldsConcat(ts: seq<Token>, pos: nat, a: seq<Token>, b: seq<Token>)
    ensures Holds(ts, pos, a + b) <==> Holds(ts, pos, a) && Holds(ts, pos + |a|, b)
    decreases |a|
  {
    if a == [] {
      assert a + b == b;
      HoldsIsSlice(ts, pos, b);
    } else {
      assert (a + b)[0] == a[0] && (a + b)[1..] == a[1..] + b;
      HoldsConcat(ts, pos + 1, a[1..], b);
    }
  }

  lemma {:induction false} HoldsAt(ts: seq<Token>, pos: nat, e: seq<Token>, k: nat)
    requires Holds(ts, pos, e) && k < |e|
    ensures pos + k < |ts| && ts[pos + k] == e[k]
    decreases k
  {
    if k > 0 {
      HoldsAt(ts, pos + 1, e[1..], k - 1);
    }
  }

  /** A name list followed by anything reads as the list, and leaves the rest to read. */
  lemma NameListThen(ts: seq<Token>, pos: nat, names: seq<string>, rest: seq<Token>)
    requires |names| < 0x8000_0000
    requires Holds(ts, pos, EncodeNameList(names) + rest)
    ensures ReadNameListAt(ts, pos) == Success((names, pos + 1 + |names|))
    ensures Holds(ts, pos + 1 + |names|, rest)
  {
    HoldsConcat(ts, pos, EncodeNameList(names), rest);
    HoldsIsSlice(ts, pos, EncodeNameList(names));
    NameListRoundTrip(ts, pos, names);
  }

  /** A size list followed by anything reads as the list, and leaves the rest to read. */
  lemma SizeListThen(ts: seq<Token>, pos: nat, sizes: seq<int64>, rest: seq<Token>)
    requires |sizes| < 0x8000_0000
    requires Holds(ts, pos, EncodeSizeList(sizes) + rest)
    ensures ReadSizeListAt(ts, pos) == Success((sizes, pos + 1 + |sizes|))
    ensures Holds(ts, pos + 1 + |sizes|, rest)
  {
    HoldsConcat(ts, pos, EncodeSizeList(sizes), rest);
    HoldsIsSlice(ts, pos, EncodeSizeList(sizes));
    SizeListRoundTrip(ts, pos, sizes);
  }

  /** The four lists followed by anything read back as the same lists, and leave the rest to read. */
  lemma FileListsRoundTrip(ts: seq<Token>, pos: nat, l: FileLists, rest: seq<Token>)
    requires |l.names| < 0x8000_0000 && |l.sizes| < 0x8000_0000
    requires |l.existingNames| < 0x8000_0000 && |l.existingSizes| < 0x8000_0000
    requires Holds(ts, pos, EncodeFileLists(l) + rest)
    ensures ReadFileListsAt(ts, pos) == Success((l, pos + |EncodeFileLists(l)|))
    ensures Holds(ts, pos + |EncodeFileLists(l)|, rest)
  {
    var b1, b2 := EncodeNameList(l.names), EncodeSizeList(l.sizes);
    var b3, b4 := EncodeNameList(l.existingNames), EncodeSizeList(l.existingSizes);
    assert EncodeFileLists(l) + rest == b1 + (b2 + (b3 + (b4 + rest)));
    var p1 := pos + 1 + |l.names|;
    var p2 := p1 + 1 + |l.sizes|;
    var p3 := p2 + 1 + |l.existingNames|;
    NameListThen(ts, pos, l.names, b2 + (b3 + (b4 + rest)));
    SizeListThen(ts, p1, l.sizes, b3 + (b4 + rest));
    NameListThen(ts, p2, l.existingNames, b4 + rest);
    SizeListThen(ts, p3, l.existingSizes, rest);
  }

  /**
   * Round trip: reading, from any position, the values `writeTo` wrote there gives back
   * the same request (all four lists element for element, in order) and stops right
   * after them, whatever follows. The lists need not have matching lengths.
   */
  lemma DecodeEncode(ts: seq<Token>, pos: nat, m: FilesInfo)
    requires ListsFit(m)
    requires pos + |Encode(m)| <= |ts| && ts[pos..pos + |Encode(m)|] == Encode(m)
    ensures DecodeAt(ts, pos) == Success((m, pos + |Encode(m)|))
  {
    HoldsIsSlice(ts, pos, Encode(m));
    EncodedRequestRead(ts, pos, m);
  }

  lemma EncodedRequestRead(ts: seq<Token>, pos: nat, m: FilesInfo)
    requires ListsFit(m) && Holds(ts, pos, Encode(m))
    ensures DecodeAt(ts, pos) == Success((m, pos + |Encode(m)|))
  {
    var head := [Header(m.requestSeqNo), Long(m.recoveryId), Shard(m.shardId)];
    var l := ListsOf(m);
    var tail := [VInt(m.totalTranslogOps)];
    assert Encode(m) == head + (EncodeFileLists(l) + tail);
    HoldsConcat(ts, pos, head, EncodeFileLists(l) + tail);
    HoldsAt(ts, pos, head, 0);
    HoldsAt(ts, pos, head, 1);
    HoldsAt(ts, pos, head, 2);
    FileListsRoundTrip(ts, pos + 3, l, tail);
    HoldsAt(ts, pos + 3 + |EncodeFileLists(l)|, tail, 0);
  }

  lemma NameListOfRead(ts: seq<Token>, pos: nat)
    requires pos <= |ts| && ReadNameListAt(ts, pos).Success?
    ensures var (names, next) := ReadNameListAt(ts, pos).value;
      |names| < 0x8000_0000 && next == pos + |EncodeNameList(names)| && Holds(ts, pos, EncodeNameList(names))
  {
    var (size, q) := ReadSizeAt(ts, pos).value;
    assert ts[pos] == VInt(size as int32);
    assert ReadNameListAt(ts, pos) == ReadNamesAt(ts, q, size, []);
    EncodedNamesOfRead(ts, q, size, []);
    var (names, next) := ReadNameListAt(ts, pos).value;
    assert names[0..] == names;
    assert ts[pos..next] == [ts[pos]] + ts[q..next];
    HoldsIsSlice(ts, pos, EncodeNameList(names));
  }

  lemma SizeListOfRead(ts: seq<Token>, pos: nat)
    requires pos <= |ts| && ReadSizeListAt(ts, pos).Success?
    ensures var (sizes, next) := ReadSizeListAt(ts, pos).value;
      |sizes| < 0x8000_0000 && next == pos + |EncodeSizeList(sizes)| && Holds(ts, pos, EncodeSizeList(sizes))
  {
    var (size, q) := ReadSizeAt(ts, pos).value;
    assert ts[pos] == VInt(size as int32);
    assert ReadSizeListAt(ts, pos) == ReadSizesAt(ts, q, size, []);
    EncodedSizesOfRead(ts, q, size, []);
    var (sizes, next) := ReadSizeListAt(ts, pos).value;
    assert sizes[0..] == sizes;
    assert ts[pos..next] == [ts[pos]] + ts[q..next];
    HoldsIsSlice(ts, pos, EncodeSizeList(sizes));
  }

  lemma FileListsOfRead(ts: seq<Token>, pos: nat)
    requires pos <= |ts| && ReadFileListsAt(ts, pos).Success?
    ensures var (l, next) := ReadFileListsAt(ts, pos).value;
      && |l.names| < 0x8000_0000 && |l.sizes| < 0x8000_0000
      && |l.existingNames| < 0x8000_0000 && |l.existingSizes| < 0x8000_0000
      && next == pos + |EncodeFileLists(l)| && Holds(ts, pos, EncodeFileLists(l))
  {
    NameListOfRead(ts, pos);
    var (names, p1) := ReadNameListAt(ts, pos).value;
    SizeListOfRead(ts, p1);
    var (sizes, p2) := ReadSizeListAt(ts, p1).value;
    NameListOfRead(ts, p2);
    var (existingNames, p3) := ReadNameListAt(ts, p2).value;
    SizeListOfRead(ts, p3);
    var b1, b2, b3, b4 := EncodeNameList(names), EncodeSizeList(sizes), EncodeNameList(existingNames), EncodeSizeList(ReadSizeListAt(ts, p3).value.0);
    HoldsConcat(ts, p2, b3, b4);
    HoldsConcat(ts, p1, b2, b3 + b4);
    HoldsConcat(ts, pos, b1, b2 + (b3 + b4));
  }

  /**
   * The other direction: whatever the stream constructor accepts is exactly the encoding
   * of the request it returns, so no two different requests share a wire form.
   */
  lemma EncodeDecode(ts: seq<Token>, pos: nat)
    requires pos <= |ts| && DecodeAt(ts, pos).Success?
    ensures var (m, next) := DecodeAt(ts, pos).value;
      ListsFit(m) && pos <= next <= |ts| && ts[pos..next] == Encode(m)
  {
    var (m, next) := DecodeAt(ts, pos).value;
    ReadRequestEncoded(ts, pos);
    HoldsIsSlice(ts, pos, Encode(m));
  }

  lemma ReadRequestEncoded(ts: seq<Token>, pos: nat)
    requires pos <= |ts| && DecodeAt(ts, pos).Success?
    ensures var (m, next) := DecodeAt(ts, pos).value;
      ListsFit(m) && next == pos + |Encode(m)| && Holds(ts, pos, Encode(m))
  {
    var (m, next) := DecodeAt(ts, pos).value;
    var head := [Header(m.requestSeqNo), Long(m.recoveryId), Shard(m.shardId)];
    var p4 := DecodeSteps(ts, pos);
    FileListsOfRead(ts, pos + 3);
    var l := ListsOf(m);
    var rest := EncodeFileLists(l) + [VInt(m.totalTranslogOps)];
    HoldsConcat(ts, pos + 3, EncodeFileLists(l), [VInt(m.totalTranslogOps)]);
    assert Holds(ts, pos + 2, head[2..] + rest);
    assert Holds(ts, pos + 1, head[1..] + rest);
    assert Holds(ts, pos, head + rest);
    assert Encode(m) == head + rest;
  }

  /** What a successful DecodeAt read, token by token. */
  lemma DecodeSteps(ts: seq<Token>, pos: nat) returns (p4: nat)
    requires pos <= |ts| && DecodeAt(ts, pos).Success?
    ensures var (m, next) := DecodeAt(ts, pos).value;
      pos + 3 <= |ts| && ts[pos] == Header(m.requestSeqNo) && ts[pos + 1] == Long(m.recoveryId) &&
      ts[pos + 2] == Shard(m.shardId) && ReadFileListsAt(ts, pos + 3) == Success((ListsOf(m), p4)) &&
      p4 < |ts| && ts[p4] == VInt(m.totalTranslogOps) && next == p4 + 1
  {
    p4 := ReadFileListsAt(ts, pos + 3).value.1;
  }
}
