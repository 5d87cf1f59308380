/** The value codec of src/runtime/serialize.c: what is written for a value, what is read from bytes,
    and that reading undoes writing.
 */
module Codec {

  type byte = b: nat | b < 256

  const MAX_DEPTH: nat := 100

  const TAG_NIL: byte := 0
  const TAG_BOOL: byte := 1
  const TAG_INT: byte := 2
  const TAG_FLOAT: byte := 3
  const TAG_STRING: byte := 4
  const TAG_ARRAY: byte := 5
  const TAG_MAP: byte := 6
  const TAG_PID: byte := 7
  const TAG_BYTES: byte := 9
  const TAG_RESULT: byte := 10
  const TAG_OPTION: byte := 11
  const TAG_STRUCT: byte := 12
  const TAG_ENUM: byte := 13

  // Maps and structs are lists of named values, in the order in which they are written.
  datatype Val =
    | Nil
    | Bool(b: bool)
    | Int(i: int)
    | Float(bits: nat)
    | Str(s: seq<byte>)
    | Pid(pid: nat)
    | Array(elems: Vals)
    | Map(pairs: Fields)
    | Bytes(data: seq<byte>)
    | ResultOf(ok: bool, value: Val)
    | NoneOf
    | SomeOf(value: Val)
    | Struct(name: seq<byte>, fields: Fields)
    | Unit(name: seq<byte>, variant: seq<byte>)
    | Enum(name: seq<byte>, variant: seq<byte>, payload: Val)
    | Opaque // functions, closures and vectors

  datatype Vals = End | Cons(head: Val, tail: Vals)

  datatype Fields = NoMore | Field(key: seq<byte>, value: Val, rest: Fields)

  // Undersized: memory was asked for that is too small for what is written to it; nothing is certain after that.
  datatype Error = Corrupt | Overflow | Unsupported | Undersized

  datatype Parsed<T> = Ok(v: T, pos: nat) | Err(e: Error)

  // --- Big-endian numbers ---

  function Pow256(k: nat): (r: nat)
    ensures r > 0
  {
    if k == 0 then 1 else 256 * Pow256(k - 1)
  }

  // The low k bytes of n, high byte first.
  function BE(n: nat, k: nat): (r: seq<byte>)
    ensures |r| == k
  {
    if k == 0 then [] else BE(n / 256, k - 1) + [n % 256]
  }

  function GetBE(data: seq<byte>, pos: nat, k: nat): nat
    requires pos + k <= |data|
  {
    if k == 0 then 0
    else
      var last: nat := data[pos + k - 1];
      GetBE(data, pos, k - 1) * 256 + last
  }

  function ReadBE(data: seq<byte>, pos: nat, k: nat): (r: Parsed<nat>)
    ensures r.Ok? ==> r.pos == pos + k <= |data|
  {
    if pos + k > |data| then Err(Corrupt) else Ok(GetBE(data, pos, k), pos + k)
  }

  // The bytes stand at a position of the data.
  ghost predicate At(data: seq<byte>, pos: nat, bytes: seq<byte>) {
    pos + |bytes| <= |data| && data[pos..pos + |bytes|] == bytes
  }

  lemma AtSplit(data: seq<byte>, pos: nat, a: seq<byte>, b: seq<byte>)
    requires At(data, pos, a + b)
    ensures At(data, pos, a) && At(data, pos + |a|, b)
  {
    var ab := data[pos..pos + |a + b|];
    assert data[pos..pos + |a|] == ab[..|a|];
    assert data[pos + |a|..pos + |a| + |b|] == ab[|a|..];
  }

  lemma AtOne(data: seq<byte>, pos: nat, x: byte)
    requires At(data, pos, [x])
    ensures pos < |data| && data[pos] == x
  {
    assert data[pos] == data[pos..pos + 1][0];
  }

  lemma {:induction false} GetUndoes(data: seq<byte>, pos: nat, n: nat, k: nat)
    requires At(data, pos, BE(n, k)) && n < Pow256(k)
    ensures GetBE(data, pos, k) == n
    decreases k
  {
    if k > 0 {
      AtSplit(data, pos, BE(n / 256, k - 1), [n % 256]);
      AtOne(data, pos + k - 1, n % 256);
      GetUndoes(data, pos, n / 256, k - 1);
    }
  }

  lemma ReadUndoes(data: seq<byte>, pos: nat, n: nat, k: nat)
    requires At(data, pos, BE(n, k)) && n < Pow256(k)
    ensures ReadBE(data, pos, k) == Ok(n, pos + k)
  {
    GetUndoes(data, pos, n, k);
  }

  lemma Powers()
    ensures Pow256(1) == 256 && Pow256(4) == 0x1_0000_0000 && Pow256(8) == 0x1_0000_0000_0000_0000
  {
    assert Pow256(2) == 0x1_0000 && Pow256(3) == 0x100_0000;
    assert Pow256(5) == 0x100_0000_0000 && Pow256(6) == 0x1_0000_0000_0000 && Pow256(7) == 0x100_0000_0000_0000;
  }

  const U32: nat := 0x1_0000_0000
  const U64: nat := 0x1_0000_0000_0000_0000

  // 64-bit two's complement.
  function Unsigned(i: int): nat {
    i % U64
  }

  function Signed(n: nat): int {
    if n < U64 / 2 then n else n - U64
  }

  lemma SignedUndoes(i: int)
    requires -(U64 / 2) <= i < U64 / 2
    ensures Unsigned(i) < U64 && Signed(Unsigned(i)) == i
  {
    if i < 0 {
      assert i % U64 == i + U64;
    }
  }

  // --- Writing ---

  // A length of up to 32 bits and the bytes.
  function Sized(s: seq<byte>): (r: seq<byte>)
    ensures |r| == 4 + |s|
  {
    BE(|s| % U32, 4) + s
  }

  function Length(vs: Vals): nat {
    match vs case End => 0 case Cons(_, rest) => 1 + Length(rest)
  }

  function Count(fs: Fields): nat {
    match fs case NoMore => 0 case Field(_, _, rest) => 1 + Count(rest)
  }

  // What a value is written as; nothing that can be read back for an unsupported one.
  function Encode(v: Val): seq<byte>
    decreases v
  {
    match v
    case Nil => [TAG_NIL]
    case Bool(b) => [TAG_BOOL, if b then 1 else 0]
    case Int(i) => [TAG_INT] + BE(Unsigned(i), 8)
    case Float(bits) => [TAG_FLOAT] + BE(bits, 8)
    case Str(s) => [TAG_STRING] + Sized(s)
    case Pid(pid) => [TAG_PID] + BE(pid, 8)
    case Array(vs) => [TAG_ARRAY] + BE(Length(vs) % U32, 4) + EncodeList(vs)
    case Map(fs) => [TAG_MAP] + BE(Count(fs) % U32, 4) + EncodeFields(fs)
    case Bytes(s) => [TAG_BYTES] + Sized(s)
    case ResultOf(ok, x) => [TAG_RESULT, if ok then 1 else 0] + Encode(x)
    case NoneOf => [TAG_OPTION, 0]
    case SomeOf(x) => [TAG_OPTION, 1] + Encode(x)
    case Struct(name, fs) => [TAG_STRUCT] + Sized(name) + BE(Count(fs) % U32, 4) + EncodeFields(fs)
    case Unit(name, variant) => [TAG_ENUM] + Sized(name) + Sized(variant) + [0]
    case Enum(name, variant, x) => [TAG_ENUM] + Sized(name) + Sized(variant) + [1] + Encode(x)
    case Opaque => []
  }

  function EncodeList(vs: Vals): seq<byte>
    decreases vs
  {
    match vs case End => [] case Cons(v, rest) => Encode(v) + EncodeList(rest)
  }

  function EncodeFields(fs: Fields): seq<byte>
    decreases fs
  {
    match fs case NoMore => [] case Field(key, v, rest) => Sized(key) + (Encode(v) + EncodeFields(rest))
  }

  // --- Reading ---

  function ReadByte(data: seq<byte>, pos: nat): (r: Parsed<byte>)
    ensures r.Ok? ==> r.pos == pos + 1 <= |data|
  {
    if pos >= |data| then Err(Corrupt) else Ok(data[pos], pos + 1)
  }

  function ReadSized(data: seq<byte>, pos: nat): (r: Parsed<seq<byte>>)
    ensures r.Ok? ==> pos + 4 <= r.pos <= |data|
  {
    match ReadBE(data, pos, 4)
    case Err(e) => Err(e)
    case Ok(n, p) => if p + n > |data| then Err(Corrupt) else Ok(data[p..p + n], p + n)
  }

  // serial_read_string, for names: the length plus one for the terminator is computed with 32 bits.
  function ReadNamed(data: seq<byte>, pos: nat): (r: Parsed<seq<byte>>)
    ensures r.Ok? ==> pos + 4 <= r.pos <= |data| && |r.v| < U32 - 1
  {
    match ReadSized(data, pos)
    case Err(e) => Err(e)
    case Ok(s, p) => if (|s| + 1) % U32 < |s| + 1 then Err(Undersized) else Ok(s, p)
  }

  // What C code sees of bytes used as a name.
  function Name(s: seq<byte>): (r: seq<byte>)
    ensures |r| <= |s|
    ensures 0 !in s ==> r == s
  {
    if s == [] || s[0] == 0 then [] else [s[0]] + Name(s[1..])
  }

  // map_set in order: a key that is there already keeps its place and gets the new value.
  function Put(fs: Fields, key: seq<byte>, v: Val): Fields {
    match fs
    case NoMore => Field(key, v, NoMore)
    case Field(k, x, rest) => if k == key then Field(k, v, rest) else Field(k, x, Put(rest, key, v))
  }

  function Extend(fs: Fields, key: seq<byte>, v: Val): Fields {
    match fs case NoMore => Field(key, v, NoMore) case Field(k, x, rest) => Field(k, x, Extend(rest, key, v))
  }

  function Decode(data: seq<byte>, pos: nat, depth: nat): (r: Parsed<Val>)
    requires pos <= |data|
    ensures r.Ok? ==> pos < r.pos <= |data|
    decreases |data| - pos, 0
  {
    if depth > MAX_DEPTH then Err(Overflow)
    else
      match ReadByte(data, pos)
      case Err(e) => Err(e)
      case Ok(tag, p) =>
        if tag == TAG_NIL then Ok(Nil, p)
        else if tag == TAG_BOOL then
          (match ReadByte(data, p) case Err(e) => Err(e) case Ok(b, q) => Ok(Bool(b != 0), q))
        else if tag == TAG_INT then
          (match ReadBE(data, p, 8) case Err(e) => Err(e) case Ok(n, q) => Ok(Int(Signed(n)), q))
        else if tag == TAG_FLOAT then
          (match ReadBE(data, p, 8) case Err(e) => Err(e) case Ok(n, q) => Ok(Float(n), q))
        else if tag == TAG_STRING then
          (match ReadSized(data, p) case Err(e) => Err(e) case Ok(s, q) => Ok(Str(s), q))
        else if tag == TAG_PID then
          (match ReadBE(data, p, 8) case Err(e) => Err(e) case Ok(n, q) => Ok(Pid(n), q))
        else if tag == TAG_BYTES then
          (match ReadSized(data, p) case Err(e) => Err(e) case Ok(s, q) => Ok(Bytes(s), q))
        else if tag == TAG_ARRAY then
          (match ReadBE(data, p, 4)
           case Err(e) => Err(e)
           case Ok(n, q) => match DecodeList(data, q, depth + 1, n) case Err(e) => Err(e) case Ok(vs, z) => Ok(Array(vs), z))
        else if tag == TAG_MAP then
          (match ReadBE(data, p, 4)
           case Err(e) => Err(e)
           case Ok(n, q) => match DecodeFields(data, q, depth + 1, n, NoMore, true) case Err(e) => Err(e) case Ok(fs, z) => Ok(Map(fs), z))
        else if tag == TAG_RESULT then
          (match ReadByte(data, p)
           case Err(e) => Err(e)
           case Ok(b, q) => match Decode(data, q, depth + 1) case Err(e) => Err(e) case Ok(x, z) => Ok(ResultOf(b != 0, x), z))
        else if tag == TAG_OPTION then
          (match ReadByte(data, p)
           case Err(e) => Err(e)
           case Ok(b, q) =>
             if b == 0 then Ok(NoneOf, q)
             else match Decode(data, q, depth + 1) case Err(e) => Err(e) case Ok(x, z) => Ok(SomeOf(x), z))
        else if tag == TAG_STRUCT then
          (match ReadNamed(data, p)
           case Err(e) => Err(e)
           case Ok(name, q) =>
             match ReadBE(data, q, 4)
             case Err(e) => Err(e)
             case Ok(n, z) =>
               match DecodeFields(data, z, depth + 1, n, NoMore, false) case Err(e) => Err(e) case Ok(fs, y) => Ok(Struct(Name(name), fs), y))
        else if tag == TAG_ENUM then
          (match ReadNamed(data, p)
           case Err(e) => Err(e)
           case Ok(name, q) =>
             match ReadNamed(data, q)
             case Err(e) => Err(e)
             case Ok(variant, z) =>
               match ReadByte(data, z)
               case Err(e) => Err(e)
               case Ok(b, y) =>
                 if b == 0 then Ok(Unit(Name(name), Name(variant)), y)
                 else match Decode(data, y, depth + 1) case Err(e) => Err(e) case Ok(x, u) => Ok(Enum(Name(name), Name(variant), x), u))
        else Err(Unsupported)
  }

  function DecodeList(data: seq<byte>, pos: nat, depth: nat, n: nat): (r: Parsed<Vals>)
    requires pos <= |data|
    ensures r.Ok? ==> pos <= r.pos <= |data|
    decreases |data| - pos, 1
  {
    if n == 0 then Ok(End, pos)
    else
      match Decode(data, pos, depth)
      case Err(e) => Err(e)
      case Ok(v, p) =>
        match DecodeList(data, p, depth, n - 1)
        case Err(e) => Err(e)
        case Ok(vs, q) => Ok(Cons(v, vs), q)
  }

  // The pairs of a map, where a repeated key replaces the value, or the fields of a struct.
  function DecodeFields(data: seq<byte>, pos: nat, depth: nat, n: nat, sofar: Fields, isMap: bool): (r: Parsed<Fields>)
    requires pos <= |data|
    ensures r.Ok? ==> pos <= r.pos <= |data|
    decreases |data| - pos, 1
  {
    if n == 0 then Ok(sofar, pos)
    else
      match ReadNamed(data, pos)
      case Err(e) => Err(e)
      case Ok(key, p) =>
        match Decode(data, p, depth)
        case Err(e) => Err(e)
        case Ok(v, q) =>
          DecodeFields(data, q, depth, n - 1, if isMap then Put(sofar, Name(key), v) else Extend(sofar, Name(key), v), isMap)
  }

  // --- Reading undoes writing ---

  // How deeply values are nested in a value.
  function Depth(v: Val): nat
    decreases v
  {
    match v
    case Array(vs) => Deepest(vs)
    case Map(fs) => DeepestField(fs)
    case ResultOf(_, x) => 1 + Depth(x)
    case SomeOf(x) => 1 + Depth(x)
    case Struct(_, fs) => DeepestField(fs)
    case Enum(_, _, x) => 1 + Depth(x)
    case _ => 0
  }

  function Max(a: nat, b: nat): nat {
    if a < b then b else a
  }

  function Deepest(vs: Vals): nat
    decreases vs
  {
    match vs case End => 0 case Cons(v, rest) => Max(1 + Depth(v), Deepest(rest))
  }

  function DeepestField(fs: Fields): nat
    decreases fs
  {
    match fs case NoMore => 0 case Field(_, v, rest) => Max(1 + Depth(v), DeepestField(rest))
  }

  function Keys(fs: Fields): set<seq<byte>> {
    match fs case NoMore => {} case Field(k, _, rest) => {k} + Keys(rest)
  }

  predicate DistinctKeys(fs: Fields) {
    match fs case NoMore => true case Field(k, _, rest) => k !in Keys(rest) && DistinctKeys(rest)
  }

  predicate IsName(s: seq<byte>, limit: nat) {
    0 !in s && |s| < limit
  }

  // Names whose length plus one still has 32 bits.
  const NAMES: nat := U32 - 1

  // Supported values whose numbers have 64 bits, whose lengths have 32, and whose names are C strings
  // shorter than the limit.
  predicate Good(v: Val, limit: nat)
    decreases v
  {
    match v
    case Int(i) => -(U64 / 2) <= i < U64 / 2
    case Float(bits) => bits < U64
    case Str(s) => |s| < U32
    case Pid(pid) => pid < U64
    case Array(vs) => Length(vs) < U32 && GoodList(vs, limit)
    case Map(fs) => Count(fs) < U32 && GoodFields(fs, limit) && DistinctKeys(fs)
    case Bytes(s) => |s| < U32
    case ResultOf(_, x) => Good(x, limit)
    case SomeOf(x) => Good(x, limit)
    case Struct(name, fs) => IsName(name, limit) && Count(fs) < U32 && GoodFields(fs, limit)
    case Unit(name, variant) => IsName(name, limit) && IsName(variant, limit)
    case Enum(name, variant, x) => IsName(name, limit) && IsName(variant, limit) && Good(x, limit)
    case Opaque => false
    case _ => true
  }

  predicate GoodList(vs: Vals, limit: nat)
    decreases vs
  {
    match vs case End => true case Cons(v, rest) => Good(v, limit) && GoodList(rest, limit)
  }

  predicate GoodFields(fs: Fields, limit: nat)
    decreases fs
  {
    match fs case NoMore => true case Field(k, v, rest) => IsName(k, limit) && Good(v, limit) && GoodFields(rest, limit)
  }

  // What the reader should make of well-formed bytes.
  function Expected<T>(deep: nat, v: T, pos: nat): Parsed<T> {
    if deep <= MAX_DEPTH then Ok(v, pos) else Err(Overflow)
  }

  lemma SizedUndoes(data: seq<byte>, pos: nat, s: seq<byte>)
    requires At(data, pos, Sized(s)) && |s| < U32
    ensures ReadSized(data, pos) == Ok(s, pos + 4 + |s|)
  {
    AtSplit(data, pos, BE(|s| % U32, 4), s);
    Powers();
    ReadUndoes(data, pos, |s|, 4);
  }

  lemma ByteUndoes(data: seq<byte>, pos: nat, b: byte)
    requires At(data, pos, [b])
    ensures ReadByte(data, pos) == Ok(b, pos + 1)
  {
    AtOne(data, pos, b);
  }

  // The tag has been read.
  lemma TagRead(data: seq<byte>, pos: nat, tag: byte, rest: seq<byte>)
    requires At(data, pos, [tag] + rest)
    ensures pos < |data| && data[pos] == tag && At(data, pos + 1, rest)
  {
    AtSplit(data, pos, [tag], rest);
    AtOne(data, pos, tag);
  }

  lemma TwoRead(data: seq<byte>, pos: nat, tag: byte, b: byte, rest: seq<byte>)
    requires At(data, pos, [tag, b] + rest)
    ensures pos + 1 < |data| && data[pos] == tag && data[pos + 1] == b && At(data, pos + 2, rest)
  {
    AtSplit(data, pos, [tag, b], rest);
    assert [tag, b] == [tag] + [b];
    AtSplit(data, pos, [tag], [b]);
    AtOne(data, pos, tag);
    AtOne(data, pos + 1, b);
  }

  // Unfolding the reader at each kind of compound value.
  lemma ReadArray(data: seq<byte>, pos: nat, depth: nat)
    requires pos < |data| && depth <= MAX_DEPTH && data[pos] == TAG_ARRAY && ReadBE(data, pos + 1, 4).Ok?
    ensures var n := ReadBE(data, pos + 1, 4);
            Decode(data, pos, depth) == match DecodeList(data, n.pos, depth + 1, n.v) case Err(e) => Err(e) case Ok(vs, z) => Ok(Array(vs), z)
  {
    hide ReadBE, DecodeList;
  }

  lemma ReadMap(data: seq<byte>, pos: nat, depth: nat)
    requires pos < |data| && depth <= MAX_DEPTH && data[pos] == TAG_MAP && ReadBE(data, pos + 1, 4).Ok?
    ensures var n := ReadBE(data, pos + 1, 4);
            Decode(data, pos, depth) == match DecodeFields(data, n.pos, depth + 1, n.v, NoMore, true) case Err(e) => Err(e) case Ok(fs, z) => Ok(Map(fs), z)
  {
    hide ReadBE, DecodeFields;
  }

  lemma ReadNested(data: seq<byte>, pos: nat, depth: nat)
    requires pos + 1 < |data| && depth <= MAX_DEPTH && (data[pos] == TAG_RESULT || (data[pos] == TAG_OPTION && data[pos + 1] != 0))
    ensures Decode(data, pos, depth) == match Decode(data, pos + 2, depth + 1)
                                        case Err(e) => Err(e)
                                        case Ok(x, z) => Ok(if data[pos] == TAG_OPTION then SomeOf(x) else ResultOf(data[pos + 1] != 0, x), z)
  {
  }

  lemma ReadStruct(data: seq<byte>, pos: nat, depth: nat)
    requires pos < |data| && depth <= MAX_DEPTH && data[pos] == TAG_STRUCT
    requires ReadNamed(data, pos + 1).Ok? && ReadBE(data, ReadNamed(data, pos + 1).pos, 4).Ok?
    ensures var name := ReadNamed(data, pos + 1);
            var n := ReadBE(data, name.pos, 4);
            Decode(data, pos, depth) == match DecodeFields(data, n.pos, depth + 1, n.v, NoMore, false)
                                        case Err(e) => Err(e)
                                        case Ok(fs, z) => Ok(Struct(Name(name.v), fs), z)
  {
    hide ReadBE, ReadNamed, DecodeFields, Name;
  }

  lemma ReadEnum(data: seq<byte>, pos: nat, depth: nat)
    requires pos < |data| && depth <= MAX_DEPTH && data[pos] == TAG_ENUM
    requires ReadNamed(data, pos + 1).Ok? && ReadNamed(data, ReadNamed(data, pos + 1).pos).Ok?
    requires ReadByte(data, ReadNamed(data, ReadNamed(data, pos + 1).pos).pos).Ok?
    ensures var name := ReadNamed(data, pos + 1);
            var variant := ReadNamed(data, name.pos);
            var b := ReadByte(data, variant.pos);
            Decode(data, pos, depth) ==
              if b.v == 0 then Ok(Unit(Name(name.v), Name(variant.v)), b.pos)
              else match Decode(data, b.pos, depth + 1)
                   case Err(e) => Err(e)
                   case Ok(x, z) => Ok(Enum(Name(name.v), Name(variant.v), x), z)
  {
    hide ReadNamed, Name;
  }

  lemma ReadLeaf(data: seq<byte>, pos: nat, depth: nat)
    requires pos < |data| && depth <= MAX_DEPTH
    ensures data[pos] == TAG_NIL ==> Decode(data, pos, depth) == Ok(Nil, pos + 1)
    ensures data[pos] == TAG_BOOL && pos + 1 < |data| ==> Decode(data, pos, depth) == Ok(Bool(data[pos + 1] != 0), pos + 2)
    ensures data[pos] == TAG_OPTION && pos + 1 < |data| && data[pos + 1] == 0 ==> Decode(data, pos, depth) == Ok(NoneOf, pos + 2)
    ensures var n := ReadBE(data, pos + 1, 8);
            n.Ok? ==> && (data[pos] == TAG_INT ==> Decode(data, pos, depth) == Ok(Int(Signed(n.v)), n.pos))
                      && (data[pos] == TAG_FLOAT ==> Decode(data, pos, depth) == Ok(Float(n.v), n.pos))
                      && (data[pos] == TAG_PID ==> Decode(data, pos, depth) == Ok(Pid(n.v), n.pos))
    ensures var s := ReadSized(data, pos + 1);
            s.Ok? ==> && (data[pos] == TAG_STRING ==> Decode(data, pos, depth) == Ok(Str(s.v), s.pos))
                      && (data[pos] == TAG_BYTES ==> Decode(data, pos, depth) == Ok(Bytes(s.v), s.pos))
  {
    hide ReadBE, ReadSized, Signed;
  }

  lemma TooDeep(data: seq<byte>, pos: nat, depth: nat)
    requires pos <= |data| && depth > MAX_DEPTH
    ensures Decode(data, pos, depth) == Err(Overflow)
  {
  }

  predicate Leaf(v: Val) {
    v.Nil? || v.Bool? || v.Int? || v.Float? || v.Str? || v.Pid? || v.Bytes? || v.NoneOf?
  }

  lemma LeafRound(v: Val, data: seq<byte>, pos: nat, depth: nat)
    requires Leaf(v) && Good(v, NAMES) && depth <= MAX_DEPTH && At(data, pos, Encode(v))
    ensures Decode(data, pos, depth) == Ok(v, pos + |Encode(v)|)
  {
    hide Decode, ReadBE, ReadSized, At, BE, Sized, Signed, Unsigned;
    Powers();
    match v
    case Nil => AtOne(data, pos, TAG_NIL); ReadLeaf(data, pos, depth);
    case Bool(b) =>
      assert Encode(v) == [TAG_BOOL, if b then 1 else 0] + [];
      TwoRead(data, pos, TAG_BOOL, if b then 1 else 0, []);
      ReadLeaf(data, pos, depth);
    case NoneOf =>
      assert Encode(v) == [TAG_OPTION, 0] + [];
      TwoRead(data, pos, TAG_OPTION, 0, []);
      ReadLeaf(data, pos, depth);
    case Int(i) =>
      SignedUndoes(i);
      TagRead(data, pos, TAG_INT, BE(Unsigned(i), 8));
      ReadUndoes(data, pos + 1, Unsigned(i), 8);
      ReadLeaf(data, pos, depth);
    case Float(bits) =>
      TagRead(data, pos, TAG_FLOAT, BE(bits, 8));
      ReadUndoes(data, pos + 1, bits, 8);
      ReadLeaf(data, pos, depth);
    case Pid(pid) =>
      TagRead(data, pos, TAG_PID, BE(pid, 8));
      ReadUndoes(data, pos + 1, pid, 8);
      ReadLeaf(data, pos, depth);
    case Str(s) =>
      TagRead(data, pos, TAG_STRING, Sized(s));
      SizedUndoes(data, pos + 1, s);
      ReadLeaf(data, pos, depth);
    case Bytes(s) =>
      TagRead(data, pos, TAG_BYTES, Sized(s));
      SizedUndoes(data, pos + 1, s);
      ReadLeaf(data, pos, depth);
  }

  lemma CountRead(data: seq<byte>, pos: nat, tag: byte, n: nat, rest: seq<byte>)
    requires At(data, pos, [tag] + BE(n % U32, 4) + rest) && n < U32
    ensures pos < |data| && data[pos] == tag && ReadBE(data, pos + 1, 4) == Ok(n, pos + 5) && At(data, pos + 5, rest)
  {
    hide BE, ReadBE, At;
    Powers();
    AtSplit(data, pos, [tag] + BE(n, 4), rest);
    AtSplit(data, pos, [tag], BE(n, 4));
    AtOne(data, pos, tag);
    ReadUndoes(data, pos + 1, n, 4);
  }

  // A name read is the name written.
  lemma NameRead(data: seq<byte>, pos: nat, name: seq<byte>)
    requires At(data, pos, Sized(name)) && IsName(name, NAMES)
    ensures ReadNamed(data, pos) == Ok(name, pos + 4 + |name|) && Name(name) == name
  {
    hide ReadSized, At, Sized;
    SizedUndoes(data, pos, name);
  }

  // Exactly if it is one character shorter than what a length of 32 bits allows.
  lemma NameReadIff(data: seq<byte>, pos: nat, name: seq<byte>)
    requires At(data, pos, Sized(name)) && IsName(name, U32)
    ensures ReadNamed(data, pos) == if |name| < NAMES then Ok(name, pos + 4 + |name|) else Err(Undersized)
  {
    hide ReadSized, At, Sized;
    SizedUndoes(data, pos, name);
  }

  // For every supported value and whatever stands behind it: the value and the position behind its
  // bytes if it is nested at most as deep as allowed, and overflow if it is nested deeper.
  lemma RoundTrip(v: Val, data: seq<byte>, pos: nat, depth: nat)
    requires Good(v, NAMES) && At(data, pos, Encode(v)) && pos <= |data|
    ensures Decode(data, pos, depth) == Expected(depth + Depth(v), v, pos + |Encode(v)|)
    decreases v, 2
  {
    hide Decode, At;
    if depth > MAX_DEPTH {
      TooDeep(data, pos, depth);
    } else if Leaf(v) {
      LeafRound(v, data, pos, depth);
    } else {
      CompoundRound(v, data, pos, depth);
    }
  }

  lemma CompoundRound(v: Val, data: seq<byte>, pos: nat, depth: nat)
    requires !Leaf(v) && Good(v, NAMES) && depth <= MAX_DEPTH && At(data, pos, Encode(v)) && pos <= |data|
    ensures Decode(data, pos, depth) == Expected(depth + Depth(v), v, pos + |Encode(v)|)
    decreases v, 1
  {
    hide Decode, At, Encode, Depth, Expected;
    if v.Array? || v.Map? {
      CollectionRound(v, data, pos, depth);
    } else if v.ResultOf? || v.SomeOf? {
      NestedRound(v, data, pos, depth);
    } else if v.Struct? {
      StructRound(v, data, pos, depth);
    } else {
      EnumRound(v, data, pos, depth);
    }
  }

  lemma CollectionRound(v: Val, data: seq<byte>, pos: nat, depth: nat)
    requires (v.Array? || v.Map?) && Good(v, NAMES) && depth <= MAX_DEPTH && At(data, pos, Encode(v)) && pos <= |data|
    ensures Decode(data, pos, depth) == Expected(depth + Depth(v), v, pos + |Encode(v)|)
    decreases v, 0
  {
    hide Decode, DecodeList, DecodeFields, ReadBE, ReadNamed, ReadByte, At, BE, Sized, EncodeList, EncodeFields, Name, Deepest, DeepestField;
    if v.Array? {
      CountRead(data, pos, TAG_ARRAY, Length(v.elems), EncodeList(v.elems));
      AtBound(data, pos + 5, EncodeList(v.elems));
      ReadArray(data, pos, depth);
      RoundList(v.elems, data, pos + 5, depth);
    } else {
      CountRead(data, pos, TAG_MAP, Count(v.pairs), EncodeFields(v.pairs));
      AtBound(data, pos + 5, EncodeFields(v.pairs));
      ReadMap(data, pos, depth);
      RoundFields(v.pairs, data, pos + 5, depth, NoMore, true);
    }
  }

  lemma NestedRound(v: Val, data: seq<byte>, pos: nat, depth: nat)
    requires (v.ResultOf? || v.SomeOf?) && Good(v, NAMES) && depth <= MAX_DEPTH && At(data, pos, Encode(v)) && pos <= |data|
    ensures Decode(data, pos, depth) == Expected(depth + Depth(v), v, pos + |Encode(v)|)
    decreases v, 0
  {
    hide Decode, At;
    var tag: byte, b: byte := if v.SomeOf? then TAG_OPTION else TAG_RESULT, if v.SomeOf? || v.ok then 1 else 0;
    TwoRead(data, pos, tag, b, Encode(v.value));
    ReadNested(data, pos, depth);
    RoundTrip(v.value, data, pos + 2, depth + 1);
  }

  lemma StructRound(v: Val, data: seq<byte>, pos: nat, depth: nat)
    requires v.Struct? && Good(v, NAMES) && depth <= MAX_DEPTH && At(data, pos, Encode(v)) && pos <= |data|
    ensures Decode(data, pos, depth) == Expected(depth + Depth(v), v, pos + |Encode(v)|)
    decreases v, 0
  {
    hide Decode, DecodeFields, ReadBE, ReadNamed, At, BE, Sized, EncodeFields, Name;
    Powers();
    var name, n, rest := v.name, Count(v.fields), EncodeFields(v.fields);
    AtSplit(data, pos, [TAG_STRUCT] + Sized(name) + BE(n, 4), rest);
    AtSplit(data, pos, [TAG_STRUCT] + Sized(name), BE(n, 4));
    TagRead(data, pos, TAG_STRUCT, Sized(name));
    NameRead(data, pos + 1, name);
    ReadUndoes(data, pos + 5 + |name|, n, 4);
    ReadStruct(data, pos, depth);
    RoundFields(v.fields, data, pos + 9 + |name|, depth, NoMore, false);
  }

  lemma EnumRound(v: Val, data: seq<byte>, pos: nat, depth: nat)
    requires (v.Unit? || v.Enum?) && Good(v, NAMES) && depth <= MAX_DEPTH && At(data, pos, Encode(v)) && pos <= |data|
    ensures Decode(data, pos, depth) == Expected(depth + Depth(v), v, pos + |Encode(v)|)
    decreases v, 0
  {
    hide Decode, ReadNamed, At, Sized, Name;
    var front := [TAG_ENUM] + Sized(v.name) + Sized(v.variant);
    var b: byte := if v.Unit? then 0 else 1;
    if v.Enum? {
      AtSplit(data, pos, front + [b], Encode(v.payload));
    }
    AtSplit(data, pos, front, [b]);
    AtSplit(data, pos, [TAG_ENUM] + Sized(v.name), Sized(v.variant));
    TagRead(data, pos, TAG_ENUM, Sized(v.name));
    NameRead(data, pos + 1, v.name);
    NameRead(data, pos + 5 + |v.name|, v.variant);
    ByteUndoes(data, pos + 9 + |v.name| + |v.variant|, b);
    ReadEnum(data, pos, depth);
    if v.Enum? {
      RoundTrip(v.payload, data, pos + 10 + |v.name| + |v.variant|, depth + 1);
    }
  }

  lemma RoundList(vs: Vals, data: seq<byte>, pos: nat, depth: nat)
    requires GoodList(vs, NAMES) && depth <= MAX_DEPTH && At(data, pos, EncodeList(vs)) && pos <= |data|
    ensures DecodeList(data, pos, depth + 1, Length(vs)) == Expected(depth + Deepest(vs), vs, pos + |EncodeList(vs)|)
    decreases vs, 0
  {
    hide Decode, At, Encode, Depth, Good, DecodeList;
    match vs
    case End => NextElement(data, pos, depth + 1, 0);
    case Cons(v, rest) =>
      AtSplit(data, pos, Encode(v), EncodeList(rest));
      RoundTrip(v, data, pos, depth + 1);
      NextElement(data, pos, depth + 1, Length(vs));
      if depth + 1 + Depth(v) <= MAX_DEPTH {
        AtBound(data, pos + |Encode(v)|, EncodeList(rest));
        RoundList(rest, data, pos + |Encode(v)|, depth);
      }
  }

  lemma NextElement(data: seq<byte>, pos: nat, depth: nat, n: nat)
    requires pos <= |data|
    ensures n == 0 ==> DecodeList(data, pos, depth, n) == Ok(End, pos)
    ensures n > 0 ==> DecodeList(data, pos, depth, n) ==
                      match Decode(data, pos, depth)
                      case Err(e) => Err(e)
                      case Ok(v, p) =>
                        match DecodeList(data, p, depth, n - 1)
                        case Err(e) => Err(e)
                        case Ok(vs, q) => Ok(Cons(v, vs), q)
  {
    hide Decode;
  }

  lemma NextField(data: seq<byte>, pos: nat, depth: nat, n: nat, sofar: Fields, isMap: bool)
    requires pos <= |data|
    ensures n == 0 ==> DecodeFields(data, pos, depth, n, sofar, isMap) == Ok(sofar, pos)
    ensures n > 0 && ReadNamed(data, pos).Ok? ==>
              var key := ReadNamed(data, pos);
              DecodeFields(data, pos, depth, n, sofar, isMap) ==
                match Decode(data, key.pos, depth)
                case Err(e) => Err(e)
                case Ok(v, q) =>
                  DecodeFields(data, q, depth, n - 1, if isMap then Put(sofar, Name(key.v), v) else Extend(sofar, Name(key.v), v), isMap)
  {
    hide Decode, ReadNamed, Put, Extend, Name;
  }

  lemma AtBound(data: seq<byte>, pos: nat, bytes: seq<byte>)
    requires At(data, pos, bytes)
    ensures pos + |bytes| <= |data|
  {
  }

  function Join(fs: Fields, more: Fields): Fields {
    match fs case NoMore => more case Field(k, v, rest) => Field(k, v, Join(rest, more))
  }

  lemma {:induction false} JoinOne(fs: Fields, key: seq<byte>, v: Val, rest: Fields)
    ensures Join(Extend(fs, key, v), rest) == Join(fs, Field(key, v, rest))
    ensures Keys(Extend(fs, key, v)) == Keys(fs) + {key}
    ensures key !in Keys(fs) ==> Put(fs, key, v) == Extend(fs, key, v)
  {
    if fs.Field? {
      JoinOne(fs.rest, key, v, rest);
    }
  }

  lemma RoundFields(fs: Fields, data: seq<byte>, pos: nat, depth: nat, sofar: Fields, isMap: bool)
    requires GoodFields(fs, NAMES) && depth <= MAX_DEPTH && At(data, pos, EncodeFields(fs)) && pos <= |data|
    requires isMap ==> DistinctKeys(fs) && Keys(fs) !! Keys(sofar)
    ensures DecodeFields(data, pos, depth + 1, Count(fs), sofar, isMap)
            == Expected(depth + DeepestField(fs), Join(sofar, fs), pos + |EncodeFields(fs)|)
    decreases fs, 0
  {
    hide Decode, DecodeFields, At, Encode, Sized, ReadNamed, Name, Depth, Good, Put, Extend, Join;
    NextField(data, pos, depth + 1, Count(fs), sofar, isMap);
    match fs
    case NoMore => JoinNone(sofar);
    case Field(key, v, rest) =>
      AtSplit(data, pos, Sized(key), Encode(v) + EncodeFields(rest));
      AtSplit(data, pos + 4 + |key|, Encode(v), EncodeFields(rest));
      AtBound(data, pos + 4 + |key|, Encode(v));
      NameRead(data, pos, key);
      RoundTrip(v, data, pos + 4 + |key|, depth + 1);
      if depth + 1 + Depth(v) <= MAX_DEPTH {
        JoinOne(sofar, key, v, rest);
        var p := pos + 4 + |key| + |Encode(v)|;
        RoundFields(rest, data, p, depth, Extend(sofar, key, v), isMap);
      }
  }

  lemma {:induction false} JoinNone(fs: Fields)
    ensures Join(fs, NoMore) == fs
  {
    if fs.Field? {
      JoinNone(fs.rest);
    }
  }

  // The whole codec: v is read back from its own bytes, followed by anything, exactly at depth 100 or less.
  lemma DecodeUndoesEncode(v: Val, before: seq<byte>, after: seq<byte>)
    requires Good(v, NAMES)
    ensures Decode(before + Encode(v) + after, |before|, 0) ==
            if Depth(v) <= MAX_DEPTH then Ok(v, |before| + |Encode(v)|) else Err(Overflow)
  {
    hide Decode, Encode;
    var data := before + Encode(v) + after;
    assert data[|before|..|before| + |Encode(v)|] == Encode(v);
    RoundTrip(v, data, |before|, 0);
  }

  // --- Arbitrary bytes ---

  function Nodes(v: Val): nat
    decreases v
  {
    match v
    case Array(vs) => 1 + NodesList(vs)
    case Map(fs) => 1 + NodesFields(fs)
    case ResultOf(_, x) => 1 + Nodes(x)
    case SomeOf(x) => 1 + Nodes(x)
    case Struct(_, fs) => 1 + NodesFields(fs)
    case Enum(_, _, x) => 1 + Nodes(x)
    case _ => 1
  }

  function NodesList(vs: Vals): nat
    decreases vs
  {
    match vs case End => 0 case Cons(v, rest) => Nodes(v) + NodesList(rest)
  }

  function NodesFields(fs: Fields): nat
    decreases fs
  {
    match fs case NoMore => 0 case Field(_, v, rest) => Nodes(v) + NodesFields(rest)
  }

  lemma {:induction false} PutNodes(fs: Fields, key: seq<byte>, v: Val)
    ensures NodesFields(Put(fs, key, v)) <= NodesFields(fs) + Nodes(v)
    ensures NodesFields(Extend(fs, key, v)) == NodesFields(fs) + Nodes(v)
    ensures NamesInFields(fs) && |key| < NAMES && Names(v) ==> NamesInFields(Put(fs, key, v)) && NamesInFields(Extend(fs, key, v))
  {
    if fs.Field? {
      PutNodes(fs.rest, key, v);
    }
  }

  // All names are short enough for the reader.
  predicate Names(v: Val)
    decreases v
  {
    match v
    case Array(vs) => NamesInList(vs)
    case Map(fs) => NamesInFields(fs)
    case ResultOf(_, x) => Names(x)
    case SomeOf(x) => Names(x)
    case Struct(name, fs) => |name| < NAMES && NamesInFields(fs)
    case Unit(name, variant) => |name| < NAMES && |variant| < NAMES
    case Enum(name, variant, x) => |name| < NAMES && |variant| < NAMES && Names(x)
    case _ => true
  }

  predicate NamesInList(vs: Vals)
    decreases vs
  {
    match vs case End => true case Cons(v, rest) => Names(v) && NamesInList(rest)
  }

  predicate NamesInFields(fs: Fields)
    decreases fs
  {
    match fs case NoMore => true case Field(k, v, rest) => |k| < NAMES && Names(v) && NamesInFields(rest)
  }

  lemma {:induction false} GoodNames(v: Val)
    requires Good(v, U32)
    ensures Good(v, NAMES) <==> Names(v)
    decreases v
  {
    match v
    case Array(vs) => GoodNamesList(vs);
    case Map(fs) => GoodNamesFields(fs);
    case ResultOf(_, x) => GoodNames(x);
    case SomeOf(x) => GoodNames(x);
    case Struct(_, fs) => GoodNamesFields(fs);
    case Enum(_, _, x) => GoodNames(x);
    case _ =>
  }

  lemma {:induction false} GoodNamesList(vs: Vals)
    requires GoodList(vs, U32)
    ensures GoodList(vs, NAMES) <==> NamesInList(vs)
    decreases vs
  {
    if vs.Cons? {
      GoodNames(vs.head);
      GoodNamesList(vs.tail);
    }
  }

  lemma {:induction false} GoodNamesFields(fs: Fields)
    requires GoodFields(fs, U32)
    ensures GoodFields(fs, NAMES) <==> NamesInFields(fs)
    decreases fs
  {
    if fs.Field? {
      GoodNames(fs.value);
      GoodNamesFields(fs.rest);
    }
  }

  // Whatever the bytes are, a value read from them has no more nodes than bytes were consumed, and names
  // short enough for the reader.
  lemma {:induction false} DecodeBounded(data: seq<byte>, pos: nat, depth: nat)
    requires pos <= |data|
    ensures var r := Decode(data, pos, depth); r.Ok? ==> pos < r.pos <= |data| && Nodes(r.v) <= r.pos - pos && Names(r.v)
    decreases |data| - pos, 2
  {
    if depth <= MAX_DEPTH && pos < |data| {
      var tag := data[pos];
      if tag == TAG_ARRAY || tag == TAG_MAP || tag == TAG_STRUCT {
        CollectionBounded(data, pos, depth);
      } else if tag == TAG_RESULT || tag == TAG_OPTION || tag == TAG_ENUM {
        NestedBounded(data, pos, depth);
      } else {
        hide ReadBE, ReadSized;
      }
    }
  }

  lemma {:induction false} NestedBounded(data: seq<byte>, pos: nat, depth: nat)
    requires pos < |data| && depth <= MAX_DEPTH && (data[pos] == TAG_RESULT || data[pos] == TAG_OPTION || data[pos] == TAG_ENUM)
    ensures var r := Decode(data, pos, depth); r.Ok? ==> pos < r.pos <= |data| && Nodes(r.v) <= r.pos - pos && Names(r.v)
    decreases |data| - pos, 1
  {
    hide ReadNamed, Name;
    var p := pos + 1;
    if data[pos] == TAG_ENUM {
      var name := ReadNamed(data, p);
      if name.Ok? && ReadNamed(data, name.pos).Ok? {
        var b := ReadByte(data, ReadNamed(data, name.pos).pos);
        if b.Ok? {
          DecodeBounded(data, b.pos, depth + 1);
        }
      }
    } else if p < |data| {
      DecodeBounded(data, p + 1, depth + 1);
    }
  }

  lemma {:induction false} CollectionBounded(data: seq<byte>, pos: nat, depth: nat)
    requires pos < |data| && depth <= MAX_DEPTH && (data[pos] == TAG_ARRAY || data[pos] == TAG_MAP || data[pos] == TAG_STRUCT)
    ensures var r := Decode(data, pos, depth); r.Ok? ==> pos < r.pos <= |data| && Nodes(r.v) <= r.pos - pos && Names(r.v)
    decreases |data| - pos, 1
  {
    hide ReadNamed, ReadBE, Name;
    var p := if data[pos] == TAG_STRUCT && ReadNamed(data, pos + 1).Ok? then ReadNamed(data, pos + 1).pos else pos + 1;
    var n := ReadBE(data, p, 4);
    if n.Ok? {
      if data[pos] == TAG_ARRAY {
        ListBounded(data, n.pos, depth + 1, n.v);
      } else {
        FieldsBounded(data, n.pos, depth + 1, n.v, NoMore, data[pos] == TAG_MAP);
      }
    }
  }

  lemma {:induction false} ListBounded(data: seq<byte>, pos: nat, depth: nat, n: nat)
    requires pos <= |data|
    ensures var r := DecodeList(data, pos, depth, n); r.Ok? ==> pos <= r.pos <= |data| && NodesList(r.v) <= r.pos - pos && NamesInList(r.v)
    decreases |data| - pos, 3
  {
    hide Decode, Nodes;
    if n > 0 {
      DecodeBounded(data, pos, depth);
      var v := Decode(data, pos, depth);
      if v.Ok? {
        ListBounded(data, v.pos, depth, n - 1);
      }
    }
  }

  lemma {:induction false} FieldsBounded(data: seq<byte>, pos: nat, depth: nat, n: nat, sofar: Fields, isMap: bool)
    requires pos <= |data| && NamesInFields(sofar)
    ensures var r := DecodeFields(data, pos, depth, n, sofar, isMap);
            r.Ok? ==> pos <= r.pos <= |data| && NodesFields(r.v) <= NodesFields(sofar) + (r.pos - pos) && NamesInFields(r.v)
    decreases |data| - pos, 3
  {
    hide Decode, Nodes, ReadNamed, Name, Put, Extend;
    if n > 0 && ReadNamed(data, pos).Ok? {
      var key := ReadNamed(data, pos);
      DecodeBounded(data, key.pos, depth);
      var v := Decode(data, key.pos, depth);
      if v.Ok? {
        PutNodes(sofar, Name(key.v), v.v);
        FieldsBounded(data, v.pos, depth, n - 1, if isMap then Put(sofar, Name(key.v), v.v) else Extend(sofar, Name(key.v), v.v), isMap);
      }
    }
  }

  // Of the values whose lengths have 32 bits, exactly those are read back that are nested at most 100 deep and
  // whose names are one character shorter than such a length allows.
  lemma DecodeExact(v: Val, before: seq<byte>, after: seq<byte>)
    requires Good(v, U32)
    ensures Decode(before + Encode(v) + after, |before|, 0) == Ok(v, |before| + |Encode(v)|) <==> Names(v) && Depth(v) <= MAX_DEPTH
  {
    hide Decode, Encode, Names, Depth, Good;
    var data := before + Encode(v) + after;
    GoodNames(v);
    DecodeBounded(data, |before|, 0);
    if Good(v, NAMES) {
      DecodeUndoesEncode(v, before, after);
    }
  }
}
