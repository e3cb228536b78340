/**
 * The point-data wire format (pyephember2.py: decode_point_data,
 * zone_command_to_ints, send_zone_commands).
 *
 * A record is a 0 byte, an index byte, a datatype byte and then as many
 * big-endian value bytes as the datatype is wide: 1 -> 1, 2 -> 2, 4 -> 2,
 * 5 -> 4. The base64 wrapping around the byte stream is not modelled;
 * the decoder reads the decoded bytes and the encoder produces them.
 */
module Codec {
  import opened Wrappers
  import opened ZoneData

  predicate IsByte(b: int) { 0 <= b < 256 }

  predicate AllBytes(s: seq<int>) { forall i :: 0 <= i < |s| ==> IsByte(s[i]) }

  /** The `lengths` table of the decoder: value width per datatype byte. */
  function Width(dtype: int): Option<nat>
  {
    if dtype == 1 then Some(1)
    else if dtype == 2 then Some(2)
    else if dtype == 4 then Some(2)
    else if dtype == 5 then Some(4)
    else None
  }

  function Pow256(n: nat): (p: nat)
    ensures p >= 1
  {
    if n == 0 then 1 else 256 * Pow256(n - 1)
  }

  /** bytes_to_int: big-endian, folding from the left. */
  function BytesToInt(s: seq<int>): int
  {
    if s == [] then 0 else BytesToInt(s[..|s| - 1]) * 256 + s[|s| - 1]
  }

  /** int.to_bytes(n, 'big') for a value that fits in n bytes. */
  function ToBytes(v: int, n: nat): (r: seq<int>)
    requires 0 <= v < Pow256(n)
    ensures |r| == n && AllBytes(r)
    ensures BytesToInt(r) == v
  {
    if n == 0 then []
    else
      var r := ToBytes(v / 256, n - 1) + [v % 256];
      assert r[..|r| - 1] == ToBytes(v / 256, n - 1);
      r
  }

  /** The bytes_to_int loop. */
  method BytesToIntLoop(bytes: seq<int>) returns (result: int)
    ensures result == BytesToInt(bytes)
  {
    result := 0;
    var i := 0;
    while i < |bytes|
      invariant 0 <= i <= |bytes|
      invariant result == BytesToInt(bytes[..i])
    {
      assert bytes[..i + 1][..i] == bytes[..i];
      result := result * 256 + bytes[i];
      i := i + 1;
    }
    assert bytes[..i] == bytes;
  }

  /** One entry of the decoder's result; raw_bytes is kept as the byte list it is printed from. */
  datatype Record = Record(index: int, dtype: int, raw: seq<int>, value: int)

  /**
   * The decoder's `parsed` dictionary: records keyed by index, in the order
   * their keys were first inserted (order of a Python dict).
   */
  predicate KeysDistinct(p: seq<Record>)
  {
    forall i, j :: 0 <= i < j < |p| ==> p[i].index != p[j].index
  }

  predicate HasKey(p: seq<Record>, index: int)
  {
    exists k :: 0 <= k < |p| && p[k].index == index
  }

  /** parsed[index], when present. */
  function Lookup(p: seq<Record>, index: int): (r: Option<Record>)
    ensures r.Some? <==> HasKey(p, index)
    ensures r.Some? ==> r.value.index == index && r.value in p
  {
    if p == [] then None
    else if p[0].index == index then Some(p[0])
    else Lookup(p[1..], index)
  }

  /** parsed[r.index] = r: replaces the entry in place, or appends a new key. */
  function Put(p: seq<Record>, r: Record): (q: seq<Record>)
    ensures HasKey(p, r.index) ==> |q| == |p|
    ensures !HasKey(p, r.index) ==> q == p + [r]
  {
    if p == [] then [r]
    else if p[0].index == r.index then [r] + p[1..]
    else [p[0]] + Put(p[1..], r)
  }

  /** After parsed[r.index] = r the key reads r and every other key reads as before. */
  lemma {:induction false} PutLookup(p: seq<Record>, r: Record, i: int)
    ensures Lookup(Put(p, r), i) == if i == r.index then Some(r) else Lookup(p, i)
  {
    if p != [] && p[0].index != r.index {
      PutLookup(p[1..], r, i);
      assert Put(p, r)[1..] == Put(p[1..], r);
    } else if p != [] {
      assert Put(p, r)[1..] == p[1..];
    }
  }

  /** Put keeps every key once. */
  lemma {:induction false} PutKeepsKeysDistinct(p: seq<Record>, r: Record)
    requires KeysDistinct(p)
    ensures KeysDistinct(Put(p, r))
  {
    if p != [] && p[0].index != r.index {
      PutKeepsKeysDistinct(p[1..], r);
      var q := Put(p[1..], r);
      assert !HasKey(p[1..], p[0].index) by {
        forall m | 0 <= m < |p[1..]| ensures p[1..][m].index != p[0].index {
          assert p[1..][m] == p[m + 1];
        }
      }
      forall k | 0 <= k < |q| ensures q[k].index != p[0].index {
        assert HasKey(q, q[k].index);
        PutLookup(p[1..], r, q[k].index);
      }
    }
  }

  /** The scanner's state: mode and what it has read of the current record. */
  datatype Scan = Wait | AtIndex | AtType(index: int) | AtValue(index: int, dtype: int, acc: seq<int>)

  /** One byte of the scanner loop. */
  function Step(st: Scan, p: seq<Record>, b: int): (Scan, seq<Record>)
  {
    match st
    case Wait => if b != 0 then (Wait, p) else (AtIndex, p)
    case AtIndex => (AtType(b), p)
    case AtType(index) => if Width(b).None? then (Wait, p) else (AtValue(index, b, []), p)
    case AtValue(index, t, acc) =>
      var v := acc + [b];
      if Width(t).Some? && |v| == Width(t).value then (Wait, Put(p, Record(index, t, v, BytesToInt(v))))
      else (AtValue(index, t, v), p)
  }

  /** The scanner run over a byte stream from a given state and dictionary. */
  function Run(st: Scan, p: seq<Record>, s: seq<int>): (Scan, seq<Record>)
    decreases |s|
  {
    if s == [] then (st, p)
    else
      var next := Step(st, p, s[0]);
      Run(next.0, next.1, s[1..])
  }

  /** decode_point_data's result for a decoded byte stream. */
  function Decoded(s: seq<int>): seq<Record>
  {
    Run(Wait, [], s).1
  }

  datatype ScanMode = WaitMode | IndexMode | TypeMode | ValueMode

  function Abstract(mode: ScanMode, index: int, dtype: int, value: seq<int>): Scan
  {
    match mode
    case WaitMode => Wait
    case IndexMode => AtIndex
    case TypeMode => AtType(index)
    case ValueMode => AtValue(index, dtype, value)
  }

  /** decode_point_data: the four-state byte scanner over the decoded payload. */
  method DecodePointData(data: seq<int>) returns (parsed: seq<Record>)
    ensures parsed == Decoded(data)
    ensures KeysDistinct(parsed)
  {
    parsed := [];
    var mode := WaitMode;
    var dtype := 0;
    var index := 0;
    var value: seq<int> := [];
    var i := 0;
    while i < |data|
      invariant 0 <= i <= |data|
      invariant mode != ValueMode ==> value == []
      invariant mode == ValueMode ==> Width(dtype).Some? && |value| < Width(dtype).value
      invariant KeysDistinct(parsed)
      invariant Run(Abstract(mode, index, dtype, value), parsed, data[i..]) == Run(Wait, [], data)
    {
      var number := data[i];
      assert data[i..][1..] == data[i + 1..];
      if mode == WaitMode {
        if number == 0 {
          mode := IndexMode;
        }
      } else if mode == IndexMode {
        index := number;
        mode := TypeMode;
      } else if mode == TypeMode {
        dtype := number;
        if Width(dtype).None? {
          mode := WaitMode;
        } else {
          mode := ValueMode;
        }
      } else {
        value := value + [number];
        if |value| == Width(dtype).value {
          var v := BytesToIntLoop(value);
          PutKeepsKeysDistinct(parsed, Record(index, dtype, value, v));
          parsed := Put(parsed, Record(index, dtype, value, v));
          value := [];
          mode := WaitMode;
        }
      }
      i := i + 1;
    }
  }

  lemma {:induction false} RunConcat(st: Scan, p: seq<Record>, a: seq<int>, b: seq<int>)
    ensures Run(st, p, a + b) == Run(Run(st, p, a).0, Run(st, p, a).1, b)
    decreases |a|
  {
    if a == [] {
      assert a + b == b;
    } else {
      var next := Step(st, p, a[0]);
      assert (a + b)[0] == a[0];
      assert (a + b)[1..] == a[1..] + b;
      RunConcat(next.0, next.1, a[1..], b);
    }
  }

  /** While waiting, a non-zero byte is skipped and changes nothing. */
  lemma SkipWhileWaiting(p: seq<Record>, b: int, rest: seq<int>)
    requires b != 0
    ensures Run(Wait, p, [b] + rest) == Run(Wait, p, rest)
  {
    assert ([b] + rest)[1..] == rest;
  }

  /** A record with an unknown datatype byte is dropped: the scanner waits for the next 0 byte. */
  lemma UnknownDatatypeDropped(p: seq<Record>, index: int, dtype: int, rest: seq<int>)
    requires Width(dtype).None?
    ensures Run(Wait, p, [0, index, dtype] + rest) == Run(Wait, p, rest)
  {
    var s := [0, index, dtype] + rest;
    assert s[0] == 0 && s[1..][0] == index && s[1..][1..][0] == dtype;
    assert s[1..][1..][1..] == rest;
    assert Run(Wait, p, s) == Run(AtIndex, p, s[1..]);
    assert Run(AtIndex, p, s[1..]) == Run(AtType(index), p, s[1..][1..]);
  }

  /** The value bytes of a record: once the last one is read the record is stored and the scanner waits again. */
  lemma {:induction false} ValueBytes(index: int, t: int, acc: seq<int>, p: seq<Record>, vs: seq<int>, rest: seq<int>)
    requires Width(t).Some? && |acc| < Width(t).value && |acc| + |vs| == Width(t).value
    ensures Run(AtValue(index, t, acc), p, vs + rest) ==
      Run(Wait, Put(p, Record(index, t, acc + vs, BytesToInt(acc + vs))), rest)
    decreases |vs|
  {
    assert (vs + rest)[0] == vs[0];
    assert (vs + rest)[1..] == vs[1..] + rest;
    if |vs| == 1 {
      assert vs[1..] + rest == rest;
      assert acc + [vs[0]] == acc + vs;
    } else {
      assert (acc + [vs[0]]) + vs[1..] == acc + vs;
      ValueBytes(index, t, acc + [vs[0]], p, vs[1..], rest);
    }
  }

  /** A record as it travels: header [0, index, dtype] and value bytes. */
  datatype Frame = Frame(index: int, dtype: int, payload: seq<int>)

  predicate WellFormed(f: Frame)
  {
    Width(f.dtype).Some? && |f.payload| == Width(f.dtype).value
  }

  function FrameBytes(f: Frame): seq<int>
  {
    [0, f.index, f.dtype] + f.payload
  }

  function FrameRecord(f: Frame): Record
  {
    Record(f.index, f.dtype, f.payload, BytesToInt(f.payload))
  }

  /** A well-formed frame is decoded to its record, whatever follows it. */
  lemma FrameDecodes(f: Frame, p: seq<Record>, rest: seq<int>)
    requires WellFormed(f)
    ensures Run(Wait, p, FrameBytes(f) + rest) == Run(Wait, Put(p, FrameRecord(f)), rest)
  {
    var s := FrameBytes(f) + rest;
    assert s[0] == 0 && s[1..][0] == f.index && s[1..][1..][0] == f.dtype;
    assert s[1..][1..][1..] == f.payload + rest;
    assert Run(Wait, p, s) == Run(AtIndex, p, s[1..]);
    assert Run(AtIndex, p, s[1..]) == Run(AtType(f.index), p, s[1..][1..]);
    assert Run(AtType(f.index), p, s[1..][1..]) == Run(AtValue(f.index, f.dtype, []), p, f.payload + rest);
    ValueBytes(f.index, f.dtype, [], p, f.payload, rest);
    assert [] + f.payload == f.payload;
  }

  function Concat(fs: seq<Frame>): seq<int>
  {
    if fs == [] then [] else FrameBytes(fs[0]) + Concat(fs[1..])
  }

  function Records(fs: seq<Frame>): (rs: seq<Record>)
    ensures |rs| == |fs|
    ensures forall k :: 0 <= k < |fs| ==> rs[k] == FrameRecord(fs[k])
  {
    if fs == [] then [] else [FrameRecord(fs[0])] + Records(fs[1..])
  }

  /** Successive assignments parsed[r.index] = r. */
  function PutAll(p: seq<Record>, rs: seq<Record>): seq<Record>
    decreases |rs|
  {
    if rs == [] then p else PutAll(Put(p, rs[0]), rs[1..])
  }

  lemma {:induction false} ConcatDecodes(fs: seq<Frame>, p: seq<Record>)
    requires forall k :: 0 <= k < |fs| ==> WellFormed(fs[k])
    ensures Run(Wait, p, Concat(fs)) == (Wait, PutAll(p, Records(fs)))
  {
    if fs != [] {
      FrameDecodes(fs[0], p, Concat(fs[1..]));
      ConcatDecodes(fs[1..], Put(p, FrameRecord(fs[0])));
      assert Records(fs)[1..] == Records(fs[1..]);
    }
  }

  predicate FrameIndicesDistinct(fs: seq<Frame>)
  {
    forall i, j :: 0 <= i < j < |fs| ==> fs[i].index != fs[j].index
  }

  lemma HasKeyAppend(p: seq<Record>, r: Record, index: int)
    ensures HasKey(p + [r], index) <==> HasKey(p, index) || r.index == index
  {
    if HasKey(p + [r], index) {
      var m :| 0 <= m < |p + [r]| && (p + [r])[m].index == index;
      if m < |p| { assert p[m] == (p + [r])[m]; }
    }
    if HasKey(p, index) {
      var m :| 0 <= m < |p| && p[m].index == index;
      assert (p + [r])[m] == p[m];
    }
    assert (p + [r])[|p|] == r;
  }

  predicate FreshKeys(p: seq<Record>, rs: seq<Record>)
  {
    forall k :: 0 <= k < |rs| ==> !HasKey(p, rs[k].index)
  }

  lemma FreshAfterFirst(p: seq<Record>, rs: seq<Record>)
    requires rs != [] && KeysDistinct(rs) && FreshKeys(p, rs)
    ensures FreshKeys(p + [rs[0]], rs[1..]) && KeysDistinct(rs[1..])
  {
    forall k | 0 <= k < |rs[1..]|
      ensures !HasKey(p + [rs[0]], rs[1..][k].index)
    {
      assert rs[1..][k] == rs[k + 1];
      HasKeyAppend(p, rs[0], rs[k + 1].index);
    }
  }

  lemma {:induction false} PutAllFresh(p: seq<Record>, rs: seq<Record>)
    requires KeysDistinct(rs) && FreshKeys(p, rs)
    ensures PutAll(p, rs) == p + rs
    decreases |rs|
  {
    if rs != [] {
      FreshHead(p, rs);
      var q := Put(p, rs[0]);
      assert q == p + [rs[0]];
      FreshAfterFirst(p, rs);
      PutAllFresh(q, rs[1..]);
      AppendHead(p, rs);
    }
  }

  lemma AppendHead(p: seq<Record>, rs: seq<Record>)
    requires rs != []
    ensures (p + [rs[0]]) + rs[1..] == p + rs
  {
    assert rs == [rs[0]] + rs[1..];
  }

  lemma FreshHead(p: seq<Record>, rs: seq<Record>)
    requires rs != [] && FreshKeys(p, rs)
    ensures !HasKey(p, rs[0].index)
  {
  }

  /**
   * A stream of well-formed frames with distinct indices decodes to exactly
   * their records, in order.
   */
  lemma DecodeFrames(fs: seq<Frame>)
    requires forall k :: 0 <= k < |fs| ==> WellFormed(fs[k])
    requires FrameIndicesDistinct(fs)
    ensures Decoded(Concat(fs)) == Records(fs)
  {
    ConcatDecodes(fs, []);
    PutAllFresh([], Records(fs));
    assert [] + Records(fs) == Records(fs);
  }

  /**
   * A record whose dtype is unknown, sent between two runs of valid
   * frames, drops out: the frames on both sides are still decoded.
   */
  lemma UnknownRecordBetweenFrames(before: seq<Frame>, index: int, dtype: int, after: seq<Frame>)
    requires Width(dtype).None?
    requires forall k :: 0 <= k < |before| ==> WellFormed(before[k])
    requires forall k :: 0 <= k < |after| ==> WellFormed(after[k])
    ensures Decoded(Concat(before) + [0, index, dtype] + Concat(after)) == PutAll(PutAll([], Records(before)), Records(after))
  {
    var a, b := Concat(before), Concat(after);
    assert a + [0, index, dtype] + b == a + ([0, index, dtype] + b);
    RunConcat(Wait, [], a, [0, index, dtype] + b);
    ConcatDecodes(before, []);
    UnknownDatatypeDropped(PutAll([], Records(before)), index, dtype, b);
    ConcatDecodes(after, PutAll([], Records(before)));
  }

  /** A record cut short by the end of the stream is not stored. */
  lemma TruncatedRecordIgnored(p: seq<Record>, index: int, dtype: int, vs: seq<int>)
    requires Width(dtype).Some? && |vs| < Width(dtype).value
    ensures Run(Wait, p, [0, index, dtype] + vs).1 == p
  {
    var s := [0, index, dtype] + vs;
    assert s[0] == 0 && s[1..][0] == index && s[1..][1..][0] == dtype;
    assert s[1..][1..][1..] == vs;
    assert Run(Wait, p, s) == Run(AtIndex, p, s[1..]);
    assert Run(AtIndex, p, s[1..]) == Run(AtType(index), p, s[1..][1..]);
    PartialValue(index, dtype, [], p, vs);
  }

  lemma {:induction false} PartialValue(index: int, t: int, acc: seq<int>, p: seq<Record>, vs: seq<int>)
    requires Width(t).Some? && |acc| + |vs| < Width(t).value
    ensures Run(AtValue(index, t, acc), p, vs).1 == p
    decreases |vs|
  {
    if vs != [] {
      PartialValue(index, t, acc + [vs[0]], p, vs[1..]);
    }
  }

  // ---------------------------------------------------------------------
  // Encoding

  /** The encoder's type_data table. */
  datatype CommandType = SmallInt | TempRO | TempRW | Timestamp

  function TypeId(t: CommandType): int
  {
    match t
    case SmallInt => 1
    case TempRO => 2
    case TempRW => 4
    case Timestamp => 5
  }

  function ByteLen(t: CommandType): nat
  {
    match t
    case SmallInt => 1
    case TempRO => 2
    case TempRW => 2
    case Timestamp => 4
  }

  /** writable_command_types: only these functions may be written. */
  function WritableType(f: EphFunction): (r: Option<CommandType>)
    ensures r.Some? <==> f in {AdvanceActive, TargetTempWrite, Mode, EphFunction.BoostHours, BoostTime, BoostTemp}
    ensures r.Some? ==> Width(TypeId(r.value)) == Some(ByteLen(r.value))
  {
    match f
    case AdvanceActive => Some(SmallInt)
    case TargetTempWrite => Some(TempRW)
    case Mode => Some(SmallInt)
    case BoostHours => Some(SmallInt)
    case BoostTime => Some(Timestamp)
    case BoostTemp => Some(TempRW)
    case _ => None
  }

  /**
   * ZoneCommand(name, value, index). The value is the integer that goes on the
   * wire: tenths of a degree for temperatures, Unix seconds for timestamps.
   */
  datatype ZoneCommand = ZoneCommand(name: EphFunction, value: int, index: Option<int>)

  /** The point index a command is written to: its own, or the zone's for its function. */
  function CommandIndex(z: Zone, c: ZoneCommand): Result<int>
  {
    match c.index
    case Some(i) => Ok(i)
    case None =>
      match GetPointIndex(z, c.name)
      case Err(e) => Err(e)
      case Ok(i) => if i == -1 then Err(NoPointIndex) else Ok(i)
  }

  /** The frame zone_command_to_ints emits for a command, or the error it raises. */
  function CommandFrame(z: Zone, c: ZoneCommand): (r: Result<Frame>)
    ensures WritableType(c.name).None? ==> r == Err(ReadOnlyValue)
    ensures WritableType(c.name).Some? && CommandIndex(z, c).Err? ==> r == Err(CommandIndex(z, c).error)
    ensures WritableType(c.name).Some? && CommandIndex(z, c).Ok? ==>
      var t := WritableType(c.name).value;
      (r.Ok? <==> 0 <= c.value < Pow256(ByteLen(t))) &&
      (r.Err? ==> r.error == ValueOverflow) &&
      (r.Ok? ==> r.value.index == CommandIndex(z, c).value && r.value.dtype == TypeId(t)
                 && |r.value.payload| == ByteLen(t) && AllBytes(r.value.payload)
                 && BytesToInt(r.value.payload) == c.value)
    ensures r.Ok? ==> WellFormed(r.value)
  {
    match WritableType(c.name)
    case None => Err(ReadOnlyValue)
    case Some(t) =>
      match CommandIndex(z, c)
      case Err(e) => Err(e)
      case Ok(index) =>
        if 0 <= c.value < Pow256(ByteLen(t)) then Ok(Frame(index, TypeId(t), ToBytes(c.value, ByteLen(t))))
        else Err(ValueOverflow)
  }

  /** zone_command_to_ints: the header, then the value bytes appended one at a time. */
  method ZoneCommandToInts(z: Zone, c: ZoneCommand) returns (r: Result<seq<int>>)
    ensures r.Err? <==> CommandFrame(z, c).Err?
    ensures r.Err? ==> r.error == CommandFrame(z, c).error
    ensures r.Ok? ==> r.value == FrameBytes(CommandFrame(z, c).value)
  {
    var t := WritableType(c.name);
    if t.None? {
      return Err(ReadOnlyValue);
    }
    var commandType := t.value;
    var index := CommandIndex(z, c);
    if index.Err? {
      return Err(index.error);
    }
    var ints := [0, index.value, TypeId(commandType)];
    if !(0 <= c.value < Pow256(ByteLen(commandType))) {
      return Err(ValueOverflow);
    }
    var bytes := ToBytes(c.value, ByteLen(commandType));
    var i := 0;
    while i < |bytes|
      invariant 0 <= i <= |bytes|
      invariant ints == [0, index.value, TypeId(commandType)] + bytes[..i]
    {
      ints := ints + [bytes[i]];
      i := i + 1;
      assert bytes[..i] == bytes[..i - 1] + [bytes[i - 1]];
    }
    assert bytes[..i] == bytes;
    return Ok(ints);
  }

  /** The frames of a bundle, failing with the first command that fails. */
  function BundleFrames(z: Zone, cmds: seq<ZoneCommand>): (r: Result<seq<Frame>>)
    ensures r.Ok? <==> forall k :: 0 <= k < |cmds| ==> CommandFrame(z, cmds[k]).Ok?
    ensures r.Ok? ==> |r.value| == |cmds| && forall k :: 0 <= k < |cmds| ==> r.value[k] == CommandFrame(z, cmds[k]).value
  {
    if cmds == [] then Ok([])
    else
      match CommandFrame(z, cmds[0])
      case Err(e) => Err(e)
      case Ok(f) =>
        match BundleFrames(z, cmds[1..])
        case Err(e) => Err(e)
        case Ok(fs) =>
          assert forall k :: 1 <= k < |cmds| ==> cmds[k] == cmds[1..][k - 1];
          Ok([f] + fs)
  }

  /**
   * send_zone_commands: the concatenated ints of every command, and the
   * bytes() conversion that refuses an entry outside [0, 256).
   */
  function BundlePayload(z: Zone, cmds: seq<ZoneCommand>): (r: Result<seq<int>>)
    ensures r.Ok? ==> AllBytes(r.value)
    ensures r.Ok? ==> BundleFrames(z, cmds).Ok? && r.value == Concat(BundleFrames(z, cmds).value)
  {
    match BundleFrames(z, cmds)
    case Err(e) => Err(e)
    case Ok(fs) => var ints := Concat(fs); if AllBytes(ints) then Ok(ints) else Err(NotAByte)
  }

  /**
   * Decoding a bundle of commands written to distinct indices gives back, in
   * order, each command's index, type id and value.
   */
  lemma BundleRoundTrip(z: Zone, cmds: seq<ZoneCommand>)
    requires BundleFrames(z, cmds).Ok?
    requires FrameIndicesDistinct(BundleFrames(z, cmds).value)
    ensures var d := Decoded(Concat(BundleFrames(z, cmds).value));
      |d| == |cmds| &&
      forall k :: 0 <= k < |cmds| ==>
        d[k].index == CommandIndex(z, cmds[k]).value
        && d[k].dtype == TypeId(WritableType(cmds[k].name).value)
        && d[k].value == cmds[k].value
  {
    var fs := BundleFrames(z, cmds).value;
    DecodeFrames(fs);
  }
}
