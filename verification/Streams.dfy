/** The bounded encoder and the cursor decoder, and the record format written and read through them. */
module Streams {
  import opened Base
  import opened LittleEndian
  import opened Grammar

  // ---- Growing a bounded buffer ------------------------------------------------------------------------

  function Zeros(n: nat): seq<byte> {
    seq(n, _ => 0)
  }

  /** The buffer cut or filled up to exactly `n` bytes. */
  function Resized(b: seq<byte>, n: nat): seq<byte> {
    if |b| >= n then b[..n] else b + Zeros(n - |b|)
  }

  /** Before bytes that would pass the cap are appended, the buffer is set to the size of the cap. */
  function Room(b: seq<byte>, cap: nat, additional: nat): seq<byte> {
    if |b| + additional > cap then Resized(b, cap) else b
  }

  function AppendRaw(b: seq<byte>, cap: nat, value: seq<byte>): seq<byte> {
    Room(b, cap, |value|) + value
  }

  /** A single byte is pushed without a look at the cap. */
  function AppendWord(b: seq<byte>, cap: nat, width: nat, value: nat): seq<byte> {
    if width == 1 then b + Le(1, value) else AppendRaw(b, cap, Le(width, value))
  }

  function AppendBytes(b: seq<byte>, cap: nat, value: seq<byte>): seq<byte> {
    AppendRaw(AppendWord(b, cap, 4, |value|), cap, value)
  }

  class Encoder {
    const cap: nat
    var buffer: seq<byte>

    constructor (cap: nat)
      ensures this.cap == cap && buffer == []
    {
      this.cap := cap;
      buffer := [];
    }

    method RequireCapacity(additional: nat)
      modifies this
      ensures buffer == Room(old(buffer), cap, additional)
    {
      if additional > cap || |buffer| > cap - additional {
        buffer := Resized(buffer, cap);
      }
    }

    method PutRaw(value: seq<byte>)
      modifies this
      ensures buffer == AppendRaw(old(buffer), cap, value)
    {
      RequireCapacity(|value|);
      buffer := buffer + value;
    }

    method PutWord(width: nat, value: nat)
      modifies this
      ensures buffer == AppendWord(old(buffer), cap, width, value)
      ensures |old(buffer)| + width <= cap ==> buffer == old(buffer) + Le(width, value)
    {
      var scratch := new byte[width](i => 0);
      StoreLe(scratch, 0, width, value);
      assert scratch[..] == Le(width, value);
      if width == 1 {
        buffer := buffer + scratch[..];
      } else {
        PutRaw(scratch[..]);
      }
    }

    method PutBytes(value: seq<byte>)
      modifies this
      ensures buffer == AppendBytes(old(buffer), cap, value)
      ensures |old(buffer)| + 4 + |value| <= cap ==> buffer == old(buffer) + (Le(4, |value|) + value)
    {
      PutWord(4, |value|);
      PutRaw(value);
    }

    method PutFlag(value: bool)
      modifies this
      ensures buffer == old(buffer) + Le(1, if value then 1 else 0)
    {
      PutWord(1, if value then 1 else 0);
    }
  }

  /** Walks a byte string; every read either advances the cursor or fails without moving past the end. */
  class Decoder {
    const data: seq<byte>
    var offset: nat

    ghost predicate Valid()
      reads this
    {
      offset <= |data|
    }

    function Remaining(): seq<byte>
      requires Valid()
      reads this
    {
      data[offset..]
    }

    constructor (data: seq<byte>)
      ensures this.data == data && Valid() && Remaining() == data
    {
      this.data := data;
      offset := 0;
    }

    method TakeRaw(count: nat) returns (r: Outcome<seq<byte>>)
      requires Valid()
      modifies this
      ensures Valid()
      ensures match ReadRaw(count, old(Remaining()))
              case Err(error) => r == Err(error)
              case Ok(p) => r == Ok(p.value) && Remaining() == p.rest
    {
      if |data| - offset < count {
        return Err(MalformedPersistence);
      }
      assert Remaining()[..count] == data[offset..offset + count] && Remaining()[count..] == data[offset + count..];
      r := Ok(data[offset..offset + count]);
      offset := offset + count;
    }

    method TakeWord(width: nat) returns (r: Outcome<nat>)
      requires Valid()
      modifies this
      ensures Valid()
      ensures match ReadWord(width, old(Remaining()))
              case Err(error) => r == Err(error)
              case Ok(p) => r == Ok(p.value) && Remaining() == p.rest
    {
      if |data| - offset < width {
        return Err(MalformedPersistence);
      }
      assert Remaining()[..width] == data[offset..offset + width] && Remaining()[width..] == data[offset + width..];
      var value := LoadLe(data, offset, width);
      offset := offset + width;
      r := Ok(value);
    }

    method TakeFlag() returns (r: Outcome<bool>)
      requires Valid()
      modifies this
      ensures Valid()
      ensures match ReadFlag(old(Remaining()))
              case Err(error) => r == Err(error)
              case Ok(p) => r == Ok(p.value) && Remaining() == p.rest
    {
      var raw := TakeWord(1);
      if raw.Err? {
        return Err(raw.error);
      }
      if raw.value > 1 {
        return Err(MalformedPersistence);
      }
      r := Ok(raw.value == 1);
    }

    /** A byte string whose declared length is checked against its bound before anything is taken. */
    method TakeBytes(max: nat) returns (r: Outcome<seq<byte>>)
      requires Valid()
      modifies this
      ensures Valid()
      ensures match Parse(Blob(max), old(Remaining()))
              case Err(error) => r == Err(error)
              case Ok(p) => r.Ok? && p.value == Raw(r.value) && Remaining() == p.rest
    {
      var length := TakeWord(4);
      if length.Err? {
        return Err(length.error);
      }
      if length.value > max {
        return Err(PayloadTooLarge);
      }
      r := TakeRaw(length.value);
    }
  }

  // ---- The record format through the streams -------------------------------------------------------------

  /** What a buffer becomes when a value is written to it, cap or no cap. */
  function Written(b: seq<byte>, cap: nat, shape: Shape, v: Value): seq<byte>
    decreases shape, 1, 0
  {
    match shape
    case Word(width, _, _, _) => if v.Num? then AppendWord(b, cap, width, v.n) else b
    case Blob(_) => if v.Raw? then AppendBytes(b, cap, v.bytes) else b
    case Many(_, item) => if v.List? then WrittenItems(AppendWord(b, cap, 4, |v.items|), cap, item, v.items) else b
    case Maybe(item) => if v.Present? then Written(b + Le(1, 1), cap, item, v.value) else b + Le(1, 0)
    case Record(fields) => if v.Tuple? && |v.values| == |fields| then WrittenFields(b, cap, fields, v.values) else b
  }

  function WrittenItems(b: seq<byte>, cap: nat, item: Shape, items: seq<Value>): seq<byte>
    decreases item, 2, |items|
  {
    if items == [] then b else WrittenItems(Written(b, cap, item, items[0]), cap, item, items[1..])
  }

  function WrittenFields(b: seq<byte>, cap: nat, fields: seq<Shape>, vs: seq<Value>): seq<byte>
    requires |vs| == |fields|
    decreases fields, 0, 0
  {
    if fields == [] then b else WrittenFields(Written(b, cap, fields[0], vs[0]), cap, fields[1..], vs[1..])
  }

  /** As long as the cap is not passed, writing appends exactly the printed form. */
  lemma {:induction false} WritingPrints(b: seq<byte>, cap: nat, shape: Shape, v: Value)
    requires |b| + |Print(shape, v)| <= cap
    ensures Written(b, cap, shape, v) == b + Print(shape, v)
    decreases shape, 1, 0
  {
    match shape {
      case Word(width, _, _, _) =>
      case Blob(_) =>
        if v.Raw? {
          Regroup(b, Le(4, |v.bytes|), v.bytes);
        }
      case Many(_, item) =>
        if v.List? {
          WritingItemsPrints(b + Le(4, |v.items|), cap, item, v.items);
          Regroup(b, Le(4, |v.items|), PrintItems(item, v.items));
        }
      case Maybe(item) =>
        if v.Present? {
          WritingPrints(b + Le(1, 1), cap, item, v.value);
          Regroup(b, Le(1, 1), Print(item, v.value));
        }
      case Record(fields) =>
        if v.Tuple? && |v.values| == |fields| {
          WritingFieldsPrints(b, cap, fields, v.values);
        }
    }
  }

  lemma {:induction false} WritingItemsPrints(b: seq<byte>, cap: nat, item: Shape, items: seq<Value>)
    requires |b| + |PrintItems(item, items)| <= cap
    ensures WrittenItems(b, cap, item, items) == b + PrintItems(item, items)
    decreases item, 2, |items|
  {
    if items != [] {
      WritingPrints(b, cap, item, items[0]);
      WritingItemsPrints(b + Print(item, items[0]), cap, item, items[1..]);
      Regroup(b, Print(item, items[0]), PrintItems(item, items[1..]));
    }
  }

  lemma {:induction false} WritingFieldsPrints(b: seq<byte>, cap: nat, fields: seq<Shape>, vs: seq<Value>)
    requires |vs| == |fields| && |b| + |PrintFields(fields, vs)| <= cap
    ensures WrittenFields(b, cap, fields, vs) == b + PrintFields(fields, vs)
    decreases fields, 0, 0
  {
    if fields != [] {
      WritingPrints(b, cap, fields[0], vs[0]);
      WritingFieldsPrints(b + Print(fields[0], vs[0]), cap, fields[1..], vs[1..]);
      Regroup(b, Print(fields[0], vs[0]), PrintFields(fields[1..], vs[1..]));
    }
  }

  /** Writing a value: exactly its printed form while the cap lasts. */
  method Write(out: Encoder, shape: Shape, v: Value)
    requires Conforms(shape, v)
    modifies out
    ensures out.buffer == Written(old(out.buffer), out.cap, shape, v)
    decreases shape, 1, 0
  {
    match shape {
      case Word(width, _, _, _) =>
        out.PutWord(width, v.n);
      case Blob(_) =>
        out.PutBytes(v.bytes);
      case Many(_, item) =>
        out.PutWord(4, |v.items|);
        WriteItems(out, item, v.items);
      case Maybe(item) =>
        if v.Present? {
          out.PutFlag(true);
          Write(out, item, v.value);
        } else {
          out.PutFlag(false);
        }
      case Record(fields) =>
        WriteFields(out, fields, v.values);
    }
  }

  method WriteFields(out: Encoder, fields: seq<Shape>, vs: seq<Value>)
    requires |vs| == |fields| && (forall i :: 0 <= i < |fields| ==> Conforms(fields[i], vs[i]))
    modifies out
    ensures out.buffer == WrittenFields(old(out.buffer), out.cap, fields, vs)
    decreases fields, 0, 0
  {
    if fields != [] {
      Write(out, fields[0], vs[0]);
      WriteFields(out, fields[1..], vs[1..]);
    }
  }

  method WriteItems(out: Encoder, item: Shape, items: seq<Value>)
    requires forall x :: x in items ==> Conforms(item, x)
    modifies out
    ensures out.buffer == WrittenItems(old(out.buffer), out.cap, item, items)
    decreases item, 2, |items|
  {
    for i := 0 to |items|
      invariant WrittenItems(old(out.buffer), out.cap, item, items) == WrittenItems(out.buffer, out.cap, item, items[i..])
    {
      assert items[i..][1..] == items[i + 1..];
      Write(out, item, items[i]);
    }
    assert items[|items|..] == [];
  }

  /** Reading follows the parser: same value, same error, same place in the input. */
  method Read(input: Decoder, shape: Shape) returns (r: Outcome<Value>)
    requires input.Valid()
    modifies input
    ensures input.Valid()
    ensures match Parse(shape, old(input.Remaining()))
            case Err(error) => r == Err(error)
            case Ok(p) => r == Ok(p.value) && input.Remaining() == p.rest
    decreases shape, 1, 0
  {
    match shape {
      case Word(width, low, high, refusal) =>
        var word := input.TakeWord(width);
        if word.Err? {
          return Err(word.error);
        }
        if word.value < low || word.value > high {
          return Err(refusal);
        }
        return Ok(Num(word.value));
      case Blob(max) =>
        var bytes := input.TakeBytes(max);
        if bytes.Err? {
          return Err(bytes.error);
        }
        return Ok(Raw(bytes.value));
      case Many(max, item) =>
        var count := input.TakeWord(4);
        if count.Err? {
          return Err(count.error);
        }
        if count.value > max {
          return Err(ResourceLimitExceeded);
        }
        var items := ReadItems(input, item, count.value);
        if items.Err? {
          return Err(items.error);
        }
        return Ok(List(items.value));
      case Maybe(item) =>
        var flag := input.TakeFlag();
        if flag.Err? {
          return Err(flag.error);
        }
        if !flag.value {
          return Ok(Absent);
        }
        var value := Read(input, item);
        if value.Err? {
          return Err(value.error);
        }
        return Ok(Present(value.value));
      case Record(fields) =>
        var values := ReadFields(input, fields);
        if values.Err? {
          return Err(values.error);
        }
        return Ok(Tuple(values.value));
    }
  }

  method ReadFields(input: Decoder, fields: seq<Shape>) returns (r: Outcome<seq<Value>>)
    requires input.Valid()
    modifies input
    ensures input.Valid()
    ensures match ParseFields(fields, old(input.Remaining()))
            case Err(error) => r == Err(error)
            case Ok(p) => r == Ok(p.value) && input.Remaining() == p.rest
    decreases fields, 0, 0
  {
    if fields == [] {
      return Ok([]);
    }
    var head := Read(input, fields[0]);
    if head.Err? {
      return Err(head.error);
    }
    var tail := ReadFields(input, fields[1..]);
    if tail.Err? {
      return tail;
    }
    r := Ok([head.value] + tail.value);
  }

  method ReadItems(input: Decoder, item: Shape, count: nat) returns (r: Outcome<seq<Value>>)
    requires input.Valid()
    modifies input
    ensures input.Valid()
    ensures match ParseItems(item, count, old(input.Remaining()))
            case Err(error) => r == Err(error)
            case Ok(p) => r == Ok(p.value) && input.Remaining() == p.rest
    decreases item, 2, count
  {
    if count == 0 {
      return Ok([]);
    }
    var head := Read(input, item);
    if head.Err? {
      return Err(head.error);
    }
    var tail := ReadItems(input, item, count - 1);
    if tail.Err? {
      return tail;
    }
    r := Ok([head.value] + tail.value);
  }

  method ReadAll(data: seq<byte>, shape: Shape) returns (r: Outcome<Value>)
    ensures r == ParseAll(shape, data)
  {
    var input := new Decoder(data);
    r := Read(input, shape);
    if r.Ok? && input.offset < |input.data| {
      return Err(TrailingData);
    }
  }
}
