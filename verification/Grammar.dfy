/**
 The record format of the state file: a grammar of bounded little-endian words, length-prefixed
 byte strings, counted lists, optional fields and concatenation, with one printer and one parser.
 */
module Grammar {
  import opened Base
  import opened LittleEndian
  import Spec

  datatype Shape =
    | Word(width: nat, low: nat, high: nat, refusal: Error)
    | Blob(max: nat)
    | Many(max: nat, item: Shape)
    | Maybe(item: Shape)
    | Record(fields: seq<Shape>)

  datatype Value =
    | Num(n: nat)
    | Raw(bytes: seq<byte>)
    | List(items: seq<Value>)
    | Absent
    | Present(value: Value)
    | Tuple(values: seq<Value>)

  ghost predicate Conforms(shape: Shape, v: Value) {
    match shape
    case Word(width, low, high, _) => v.Num? && low <= v.n <= high && v.n < Power256(width)
    case Blob(max) => v.Raw? && |v.bytes| <= max && |v.bytes| <= U32_MAX
    case Many(max, item) =>
      v.List? && |v.items| <= max && |v.items| <= U32_MAX && forall x :: x in v.items ==> Conforms(item, x)
    case Maybe(item) => v.Absent? || (v.Present? && Conforms(item, v.value))
    case Record(fields) =>
      v.Tuple? && |v.values| == |fields| && forall i :: 0 <= i < |fields| ==> Conforms(fields[i], v.values[i])
  }

  // ---- Printing ---------------------------------------------------------------------------------------

  function Print(shape: Shape, v: Value): seq<byte>
    decreases shape, 1, 0
  {
    match shape
    case Word(width, _, _, _) => if v.Num? then Le(width, v.n) else []
    case Blob(_) => if v.Raw? then Le(4, |v.bytes|) + v.bytes else []
    case Many(_, item) => if v.List? then Le(4, |v.items|) + PrintItems(item, v.items) else []
    case Maybe(item) => if v.Present? then Le(1, 1) + Print(item, v.value) else Le(1, 0)
    case Record(fields) => if v.Tuple? && |v.values| == |fields| then PrintFields(fields, v.values) else []
  }

  function PrintItems(item: Shape, items: seq<Value>): seq<byte>
    decreases item, 2, |items|
  {
    if items == [] then [] else Print(item, items[0]) + PrintItems(item, items[1..])
  }

  function PrintFields(fields: seq<Shape>, vs: seq<Value>): seq<byte>
    requires |vs| == |fields|
    decreases fields, 0, 0
  {
    if fields == [] then [] else Print(fields[0], vs[0]) + PrintFields(fields[1..], vs[1..])
  }

  // ---- Parsing ------------------------------------------------------------------------------------------

  /** A value and the input behind it. */
  datatype Parsed<+T> = Parsed(value: T, rest: seq<byte>)

  function ReadWord(width: nat, data: seq<byte>): Outcome<Parsed<nat>> {
    if |data| < width then Err(MalformedPersistence) else Ok(Parsed(FromLe(data[..width]), data[width..]))
  }

  function ReadRaw(count: nat, data: seq<byte>): Outcome<Parsed<seq<byte>>> {
    if |data| < count then Err(MalformedPersistence) else Ok(Parsed(data[..count], data[count..]))
  }

  /** A flag byte: anything but 0 and 1 is malformed. */
  function ReadFlag(data: seq<byte>): Outcome<Parsed<bool>> {
    match ReadWord(1, data)
    case Err(error) => Err(error)
    case Ok(p) => if p.value > 1 then Err(MalformedPersistence) else Ok(Parsed(p.value == 1, p.rest))
  }

  function Parse(shape: Shape, data: seq<byte>): Outcome<Parsed<Value>>
    decreases shape, 1, 0
  {
    match shape
    case Word(width, low, high, refusal) => (
      match ReadWord(width, data)
      case Err(error) => Err(error)
      case Ok(p) => if p.value < low || p.value > high then Err(refusal) else Ok(Parsed(Num(p.value), p.rest)))
    case Blob(max) => (
      match ReadWord(4, data)
      case Err(error) => Err(error)
      case Ok(p) =>
        if p.value > max then Err(PayloadTooLarge)
        else
          match ReadRaw(p.value, p.rest)
          case Err(error) => Err(error)
          case Ok(q) => Ok(Parsed(Raw(q.value), q.rest)))
    case Many(max, item) => (
      match ReadWord(4, data)
      case Err(error) => Err(error)
      case Ok(p) =>
        if p.value > max then Err(ResourceLimitExceeded)
        else
          match ParseItems(item, p.value, p.rest)
          case Err(error) => Err(error)
          case Ok(q) => Ok(Parsed(List(q.value), q.rest)))
    case Maybe(item) => (
      match ReadFlag(data)
      case Err(error) => Err(error)
      case Ok(p) =>
        if !p.value then Ok(Parsed(Absent, p.rest))
        else
          match Parse(item, p.rest)
          case Err(error) => Err(error)
          case Ok(q) => Ok(Parsed(Present(q.value), q.rest)))
    case Record(fields) =>
      match ParseFields(fields, data)
      case Err(error) => Err(error)
      case Ok(p) => Ok(Parsed(Tuple(p.value), p.rest))
  }

  function ParseFields(fields: seq<Shape>, data: seq<byte>): (r: Outcome<Parsed<seq<Value>>>)
    decreases fields, 0, 0
  {
    if fields == [] then Ok(Parsed([], data))
    else
      match Parse(fields[0], data)
      case Err(error) => Err(error)
      case Ok(p) =>
        match ParseFields(fields[1..], p.rest)
        case Err(error) => Err(error)
        case Ok(q) => Ok(Parsed([p.value] + q.value, q.rest))
  }

  function ParseItems(item: Shape, count: nat, data: seq<byte>): Outcome<Parsed<seq<Value>>>
    decreases item, 2, count
  {
    if count == 0 then Ok(Parsed([], data))
    else
      match Parse(item, data)
      case Err(error) => Err(error)
      case Ok(p) =>
        match ParseItems(item, count - 1, p.rest)
        case Err(error) => Err(error)
        case Ok(q) => Ok(Parsed([p.value] + q.value, q.rest))
  }

  // ---- Parsing what was printed ----------------------------------------------------------------------------

  lemma ReadPrintedWord(width: nat, n: nat, rest: seq<byte>)
    requires n < Power256(width)
    ensures ReadWord(width, Le(width, n) + rest) == Ok(Parsed(n, rest))
  {
    LeRoundTrip(width, n);
    assert (Le(width, n) + rest)[..width] == Le(width, n);
    assert (Le(width, n) + rest)[width..] == rest;
  }

  lemma Regroup(a: seq<byte>, b: seq<byte>, c: seq<byte>)
    ensures a + b + c == a + (b + c)
  {
  }

  /** Parsing a printed value gives the value back and leaves exactly what follows it. */
  lemma {:induction false} ParseOfPrint(shape: Shape, v: Value, rest: seq<byte>)
    requires Conforms(shape, v)
    ensures Parse(shape, Print(shape, v) + rest) == Ok(Parsed(v, rest))
    decreases shape, 1, 0
  {
    Widths();
    match shape {
      case Word(width, low, high, refusal) =>
        ReadPrintedWord(width, v.n, rest);
      case Blob(max) =>
        Regroup(Le(4, |v.bytes|), v.bytes, rest);
        ReadPrintedWord(4, |v.bytes|, v.bytes + rest);
        assert (v.bytes + rest)[..|v.bytes|] == v.bytes && (v.bytes + rest)[|v.bytes|..] == rest;
      case Many(max, item) =>
        Regroup(Le(4, |v.items|), PrintItems(item, v.items), rest);
        ReadPrintedWord(4, |v.items|, PrintItems(item, v.items) + rest);
        ParseOfPrintItems(item, v.items, rest);
      case Maybe(item) =>
        if v.Present? {
          Regroup(Le(1, 1), Print(item, v.value), rest);
          ReadPrintedWord(1, 1, Print(item, v.value) + rest);
          ParseOfPrint(item, v.value, rest);
        } else {
          ReadPrintedWord(1, 0, rest);
        }
      case Record(fields) =>
        ParseOfPrintFields(fields, v.values, rest);
    }
  }

  lemma {:induction false} ParseOfPrintFields(fields: seq<Shape>, vs: seq<Value>, rest: seq<byte>)
    requires |vs| == |fields| && forall i :: 0 <= i < |fields| ==> Conforms(fields[i], vs[i])
    ensures ParseFields(fields, PrintFields(fields, vs) + rest) == Ok(Parsed(vs, rest))
    decreases fields, 0, 0
  {
    if fields == [] {
      assert PrintFields(fields, vs) + rest == rest;
    } else {
      Regroup(Print(fields[0], vs[0]), PrintFields(fields[1..], vs[1..]), rest);
      ParseOfPrint(fields[0], vs[0], PrintFields(fields[1..], vs[1..]) + rest);
      ParseOfPrintFields(fields[1..], vs[1..], rest);
      assert vs == [vs[0]] + vs[1..];
    }
  }

  lemma {:induction false} ParseOfPrintItems(item: Shape, items: seq<Value>, rest: seq<byte>)
    requires forall x :: x in items ==> Conforms(item, x)
    ensures ParseItems(item, |items|, PrintItems(item, items) + rest) == Ok(Parsed(items, rest))
    decreases item, 2, |items|
  {
    if items == [] {
      assert PrintItems(item, items) + rest == rest;
    } else {
      Regroup(Print(item, items[0]), PrintItems(item, items[1..]), rest);
      ParseOfPrint(item, items[0], PrintItems(item, items[1..]) + rest);
      ParseOfPrintItems(item, items[1..], rest);
      assert items == [items[0]] + items[1..];
    }
  }

  // ---- Printing what was parsed ------------------------------------------------------------------------------

  lemma PrintReadWord(width: nat, data: seq<byte>)
    requires |data| >= width
    ensures FromLe(data[..width]) < Power256(width) && data == Le(width, FromLe(data[..width])) + data[width..]
  {
    var word := data[..width];
    assert |word| == width;
    FromLeRoundTrip(word);
    assert data == word + data[width..];
  }

  /** Whatever the parser accepts conforms to the shape, and printing it gives the consumed bytes back. */
  lemma {:induction false} PrintOfParse(shape: Shape, data: seq<byte>)
    requires Parse(shape, data).Ok?
    ensures var p := Parse(shape, data).value;
            Conforms(shape, p.value) && data == Print(shape, p.value) + p.rest
    decreases shape, 1, 0
  {
    Widths();
    match shape {
      case Word(width, low, high, refusal) =>
        PrintReadWord(width, data);
      case Blob(max) =>
        PrintReadWord(4, data);
        var n := FromLe(data[..4]);
        assert data[4..] == data[4..][..n] + data[4..][n..];
        Regroup(Le(4, n), data[4..][..n], data[4..][n..]);
      case Many(max, item) =>
        PrintReadWord(4, data);
        PrintOfParseItems(item, FromLe(data[..4]), data[4..]);
        var q := ParseItems(item, FromLe(data[..4]), data[4..]).value;
        Regroup(Le(4, |q.value|), PrintItems(item, q.value), q.rest);
      case Maybe(item) =>
        PrintReadWord(1, data);
        if FromLe(data[..1]) == 1 {
          PrintOfParse(item, data[1..]);
          var q := Parse(item, data[1..]).value;
          Regroup(Le(1, 1), Print(item, q.value), q.rest);
        }
      case Record(fields) =>
        PrintOfParseFields(fields, data);
    }
  }

  lemma {:induction false} PrintOfParseFields(fields: seq<Shape>, data: seq<byte>)
    requires ParseFields(fields, data).Ok?
    ensures var p := ParseFields(fields, data).value;
            && |p.value| == |fields| && (forall i :: 0 <= i < |fields| ==> Conforms(fields[i], p.value[i]))
            && data == PrintFields(fields, p.value) + p.rest
    decreases fields, 0, 0
  {
    if fields != [] {
      PrintOfParse(fields[0], data);
      var p := Parse(fields[0], data).value;
      PrintOfParseFields(fields[1..], p.rest);
      var q := ParseFields(fields[1..], p.rest).value;
      Regroup(Print(fields[0], p.value), PrintFields(fields[1..], q.value), q.rest);
      assert ([p.value] + q.value)[1..] == q.value;
    }
  }

  lemma {:induction false} PrintOfParseItems(item: Shape, count: nat, data: seq<byte>)
    requires ParseItems(item, count, data).Ok?
    ensures var p := ParseItems(item, count, data).value;
            && |p.value| == count && (forall x :: x in p.value ==> Conforms(item, x))
            && data == PrintItems(item, p.value) + p.rest
    decreases item, 2, count
  {
    if count != 0 {
      PrintOfParse(item, data);
      var p := Parse(item, data).value;
      PrintOfParseItems(item, count - 1, p.rest);
      var q := ParseItems(item, count - 1, p.rest).value;
      Regroup(Print(item, p.value), PrintItems(item, q.value), q.rest);
      assert ([p.value] + q.value)[1..] == q.value;
    }
  }

  // ---- Whole messages -----------------------------------------------------------------------------------------

  function ParseAll(shape: Shape, data: seq<byte>): Outcome<Value> {
    match Parse(shape, data)
    case Err(error) => Err(error)
    case Ok(p) => if p.rest != [] then Err(TrailingData) else Ok(p.value)
  }

  /** On whole messages parser and printer are inverse to each other. */
  lemma ParseAllExactlyWhen(shape: Shape, data: seq<byte>, v: Value)
    ensures ParseAll(shape, data) == Ok(v) <==> Conforms(shape, v) && data == Print(shape, v)
  {
    if ParseAll(shape, data) == Ok(v) {
      PrintOfParse(shape, data);
      assert Print(shape, v) + [] == Print(shape, v);
    }
    if Conforms(shape, v) && data == Print(shape, v) {
      ParseOfPrint(shape, v, []);
      assert data + [] == data;
    }
  }
}
