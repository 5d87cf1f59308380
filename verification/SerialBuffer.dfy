/** The buffer that values are written to and read from (src/runtime/serialize.c): writes append, reads
    advance a position, and both follow the codec's functions.
 */
module SerialBuffers {
  import opened Codec

  datatype Outcome = Value(v: Val) | Failure(e: Error)

  predicate Supported(v: Val)
    decreases v
  {
    match v
    case Array(vs) => SupportedList(vs)
    case Map(fs) => SupportedFields(fs)
    case ResultOf(_, x) => Supported(x)
    case SomeOf(x) => Supported(x)
    case Struct(_, fs) => SupportedFields(fs)
    case Enum(_, _, x) => Supported(x)
    case Opaque => false
    case _ => true
  }

  predicate SupportedList(vs: Vals)
    decreases vs
  {
    match vs case End => true case Cons(v, rest) => Supported(v) && SupportedList(rest)
  }

  predicate SupportedFields(fs: Fields)
    decreases fs
  {
    match fs case NoMore => true case Field(_, v, rest) => Supported(v) && SupportedFields(rest)
  }

  function JoinVals(vs: Vals, more: Vals): Vals {
    match vs case End => more case Cons(v, rest) => Cons(v, JoinVals(rest, more))
  }

  // What has been read of a list, and how the reading of the rest ends.
  function Attach(vs: Vals, r: Parsed<Vals>): Parsed<Vals> {
    match r case Err(e) => Err(e) case Ok(more, pos) => Ok(JoinVals(vs, more), pos)
  }

  lemma {:induction false} JoinSnoc(vs: Vals, v: Val, more: Vals)
    ensures JoinVals(JoinVals(vs, Cons(v, End)), more) == JoinVals(vs, Cons(v, more))
  {
    if vs.Cons? {
      JoinSnoc(vs.tail, v, more);
    }
  }

  lemma {:induction false} JoinEnd(vs: Vals)
    ensures JoinVals(vs, End) == vs
  {
    if vs.Cons? {
      JoinEnd(vs.tail);
    }
  }

  lemma AttachOne(data: seq<byte>, pos: nat, depth: nat, n: nat, vs: Vals)
    requires pos <= |data| && n > 0
    ensures var v := Decode(data, pos, depth);
            && (v.Err? ==> Attach(vs, DecodeList(data, pos, depth, n)) == Err(v.e))
            && (v.Ok? ==> Attach(vs, DecodeList(data, pos, depth, n))
                          == Attach(JoinVals(vs, Cons(v.v, End)), DecodeList(data, v.pos, depth, n - 1)))
  {
    hide Decode, DecodeList, JoinVals;
    NextElement(data, pos, depth, n);
    var v := Decode(data, pos, depth);
    if v.Ok? {
      var r := DecodeList(data, v.pos, depth, n - 1);
      if r.Ok? {
        JoinSnoc(vs, v.v, r.v);
      }
    }
  }

  class SerialBuffer {
    var data: seq<byte>
    var readPos: nat

    ghost predicate Valid()
      reads this
    {
      readPos <= |data|
    }

    constructor ()
      ensures Valid() && data == [] && readPos == 0
    {
      data, readPos := [], 0;
    }

    // --- Writing ---

    method WriteU8(b: byte)
      modifies `data
      ensures data == old(data) + [b]
    {
      data := data + [b];
    }

    method WriteU32(n: nat)
      modifies `data
      ensures data == old(data) + BE(n, 4)
    {
      WriteU8(n / 0x100_0000 % 256);
      WriteU8(n / 0x1_0000 % 256);
      WriteU8(n / 0x100 % 256);
      WriteU8(n % 256);
      Bytes4(n);
    }

    method WriteU64(n: nat)
      modifies `data
      ensures data == old(data) + BE(n, 8)
    {
      WriteU8(n / 0x100_0000_0000_0000 % 256);
      WriteU8(n / 0x1_0000_0000_0000 % 256);
      WriteU8(n / 0x100_0000_0000 % 256);
      WriteU8(n / 0x1_0000_0000 % 256);
      WriteU8(n / 0x100_0000 % 256);
      WriteU8(n / 0x1_0000 % 256);
      WriteU8(n / 0x100 % 256);
      WriteU8(n % 256);
      Bytes8(n);
    }

    method WriteBytes(s: seq<byte>)
      modifies `data
      ensures data == old(data) + s
    {
      data := data + s;
    }

    // Only the low 32 bits of the length are written, and all the bytes.
    method WriteString(s: seq<byte>)
      modifies `data
      ensures data == old(data) + Sized(s)
    {
      WriteU32(|s| % U32);
      WriteBytes(s);
    }

    method WriteList(vs: Vals) returns (ok: bool)
      modifies `data
      ensures ok <==> SupportedList(vs)
      ensures old(data) <= data && (ok ==> data == old(data) + EncodeList(vs))
      decreases vs, 0
    {
      hide Encode, Supported;
      var rest := vs;
      while rest.Cons?
        invariant rest == vs || rest < vs
        invariant old(data) <= data && data + EncodeList(rest) == old(data) + EncodeList(vs)
        invariant SupportedList(vs) <==> SupportedList(rest)
        decreases rest
      {
        ghost var before := data;
        ok := SerializeValue(rest.head);
        if !ok {
          return;
        }
        assert before + (Encode(rest.head) + EncodeList(rest.tail)) == data + EncodeList(rest.tail);
        rest := rest.tail;
      }
      ok := true;
    }

    method WriteFields(fs: Fields) returns (ok: bool)
      modifies `data
      ensures ok <==> SupportedFields(fs)
      ensures old(data) <= data && (ok ==> data == old(data) + EncodeFields(fs))
      decreases fs, 0
    {
      hide Encode, Supported, Sized;
      var rest := fs;
      while rest.Field?
        invariant rest == fs || rest < fs
        invariant old(data) <= data && data + EncodeFields(rest) == old(data) + EncodeFields(fs)
        invariant SupportedFields(fs) <==> SupportedFields(rest)
        decreases rest
      {
        ghost var before := data;
        WriteString(rest.key);
        ok := SerializeValue(rest.value);
        if !ok {
          return;
        }
        Chained(before, Sized(rest.key), Encode(rest.value), EncodeFields(rest.rest));
        rest := rest.rest;
      }
      ok := true;
    }

    // serialize_value: fails exactly on values that hold a function, a closure or a vector.
    method SerializeValue(v: Val) returns (ok: bool)
      modifies `data
      ensures ok <==> Supported(v)
      ensures old(data) <= data && (ok ==> data == old(data) + Encode(v))
      decreases v, 2
    {
      ok := true;
      if v.Nil? {
        WriteU8(TAG_NIL);
      } else if v.Bool? {
        WriteU8(TAG_BOOL);
        WriteU8(if v.b then 1 else 0);
      } else if v.Int? {
        WriteU8(TAG_INT);
        WriteU64(Unsigned(v.i));
      } else if v.Float? {
        WriteU8(TAG_FLOAT);
        WriteU64(v.bits);
      } else if v.Pid? {
        WriteU8(TAG_PID);
        WriteU64(v.pid);
      } else if v.Str? {
        WriteU8(TAG_STRING);
        WriteString(v.s);
      } else if v.Bytes? {
        WriteU8(TAG_BYTES);
        WriteString(v.data);
      } else if v.NoneOf? {
        WriteU8(TAG_OPTION);
        WriteU8(0);
      } else if v.Opaque? {
        ok := false;
      } else {
        ok := SerializeCompound(v);
      }
    }

    method SerializeCompound(v: Val) returns (ok: bool)
      requires !Leaf(v) && !v.Opaque?
      modifies `data
      ensures ok <==> Supported(v)
      ensures old(data) <= data && (ok ==> data == old(data) + Encode(v))
      decreases v, 1
    {
      hide BE, Sized, EncodeList, EncodeFields, SupportedList, SupportedFields, Length, Count;
      if v.Array? {
        WriteU8(TAG_ARRAY);
        WriteU32(Length(v.elems) % U32);
        ok := WriteList(v.elems);
        Chained(old(data), [TAG_ARRAY], BE(Length(v.elems) % U32, 4), EncodeList(v.elems));
      } else if v.Map? {
        WriteU8(TAG_MAP);
        WriteU32(Count(v.pairs) % U32);
        ok := WriteFields(v.pairs);
        Chained(old(data), [TAG_MAP], BE(Count(v.pairs) % U32, 4), EncodeFields(v.pairs));
      } else if v.ResultOf? || v.SomeOf? {
        ok := SerializeWrapped(v);
      } else {
        ok := SerializeNamed(v);
      }
    }

    method SerializeWrapped(v: Val) returns (ok: bool)
      requires v.ResultOf? || v.SomeOf?
      modifies `data
      ensures ok <==> Supported(v)
      ensures old(data) <= data && (ok ==> data == old(data) + Encode(v))
      decreases v, 0
    {
      hide Encode, Supported;
      WrappedShape(v);
      var tag := if v.SomeOf? then TAG_OPTION else TAG_RESULT;
      var b: byte := if v.SomeOf? || v.ok then 1 else 0;
      WriteU8(tag);
      WriteU8(b);
      ok := SerializeValue(v.value);
      Chained(old(data), [tag], [b], Encode(v.value));
    }

    method SerializeNamed(v: Val) returns (ok: bool)
      requires v.Struct? || v.Unit? || v.Enum?
      modifies `data
      ensures ok <==> Supported(v)
      ensures old(data) <= data && (ok ==> data == old(data) + Encode(v))
      decreases v, 0
    {
      hide BE, Sized, EncodeFields, SupportedFields, Count;
      ok := true;
      if v.Struct? {
        WriteU8(TAG_STRUCT);
        WriteString(v.name);
        WriteU32(Count(v.fields) % U32);
        ok := WriteFields(v.fields);
        Chained(old(data), [TAG_STRUCT], Sized(v.name), BE(Count(v.fields) % U32, 4) + EncodeFields(v.fields));
        Chained([TAG_STRUCT], Sized(v.name), BE(Count(v.fields) % U32, 4), EncodeFields(v.fields));
      } else {
        WriteU8(TAG_ENUM);
        WriteString(v.name);
        WriteString(v.variant);
        ghost var front := data;
        Chained(old(data), [TAG_ENUM], Sized(v.name), Sized(v.variant));
        WriteU8(if v.Enum? then 1 else 0);
        if v.Enum? {
          ok := SerializeValue(v.payload);
          Chained(old(data), [TAG_ENUM] + Sized(v.name) + Sized(v.variant), [1], Encode(v.payload));
        }
      }
    }

    // --- Reading: what is read is what the codec's reader finds at the position ---

    method ReadU8() returns (r: Parsed<byte>)
      requires Valid()
      modifies `readPos
      ensures Valid() && r == ReadByte(data, old(readPos)) && readPos == if r.Ok? then r.pos else old(readPos)
    {
      if readPos >= |data| {
        return Err(Corrupt);
      }
      readPos := readPos + 1;
      r := Ok(data[readPos - 1], readPos);
    }

    method ReadU32() returns (r: Parsed<nat>)
      requires Valid()
      modifies `readPos
      ensures Valid() && r == ReadBE(data, old(readPos), 4) && readPos == if r.Ok? then r.pos else old(readPos)
    {
      if readPos + 4 > |data| {
        return Err(Corrupt);
      }
      var a: nat, b: nat, c: nat, d: nat := data[readPos], data[readPos + 1], data[readPos + 2], data[readPos + 3];
      Get4(data, readPos);
      readPos := readPos + 4;
      r := Ok(a * 0x100_0000 + b * 0x1_0000 + c * 0x100 + d, readPos);
    }

    method ReadU64() returns (r: Parsed<nat>)
      requires Valid()
      modifies `readPos
      ensures Valid() && r == ReadBE(data, old(readPos), 8) && readPos == if r.Ok? then r.pos else old(readPos)
    {
      if readPos + 8 > |data| {
        return Err(Corrupt);
      }
      var a: nat, b: nat, c: nat, d: nat := data[readPos], data[readPos + 1], data[readPos + 2], data[readPos + 3];
      var e: nat, f: nat, g: nat, h: nat := data[readPos + 4], data[readPos + 5], data[readPos + 6], data[readPos + 7];
      Get8(data, readPos);
      readPos := readPos + 8;
      r := Ok(a * 0x100_0000_0000_0000 + b * 0x1_0000_0000_0000 + c * 0x100_0000_0000 + d * 0x1_0000_0000
              + e * 0x100_0000 + f * 0x1_0000 + g * 0x100 + h, readPos);
    }

    // The length may have been read even if the bytes are missing.
    method ReadString() returns (r: Parsed<seq<byte>>)
      requires Valid()
      modifies `readPos
      ensures Valid() && r == ReadSized(data, old(readPos)) && old(readPos) <= readPos && (r.Ok? ==> readPos == r.pos)
    {
      var n := ReadU32();
      if n.Err? {
        return Err(n.e);
      }
      if readPos + n.v > |data| {
        return Err(Corrupt);
      }
      readPos := readPos + n.v;
      r := Ok(data[readPos - n.v..readPos], readPos);
    }

    // serial_read_string: room for the bytes and a terminator is asked for with 32-bit arithmetic.
    method ReadName() returns (r: Parsed<seq<byte>>)
      requires Valid()
      modifies `readPos
      ensures Valid() && r == ReadNamed(data, old(readPos)) && old(readPos) <= readPos && (r.Ok? ==> readPos == r.pos)
      ensures r.Err? && r.e != Undersized ==> readPos == if ReadBE(data, old(readPos), 4).Ok? then old(readPos) + 4 else old(readPos)
    {
      var n := ReadU32();
      if n.Err? {
        return Err(n.e);
      }
      if readPos + n.v > |data| {
        return Err(Corrupt);
      }
      var asked := (n.v + 1) % U32;
      if asked < n.v + 1 {
        return Err(Undersized);
      }
      readPos := readPos + n.v;
      r := Ok(data[readPos - n.v..readPos], readPos);
    }

    // What is found is what the codec's reader finds at `pos`; the reader's position never moves back or
    // past the end, and ends behind a value that was read.
    twostate predicate Found(r: Outcome, pos: nat, depth: nat)
      reads this
    {
      && Valid() && old(readPos) <= readPos && pos <= |data|
      && var p := Decode(data, pos, depth);
         && (p.Ok? ==> r == Value(p.v) && readPos == p.pos)
         && (p.Err? ==> r == Failure(p.e))
    }

    method ReadList(n: nat, depth: nat) returns (r: Parsed<Vals>)
      requires Valid()
      modifies `readPos
      ensures Valid() && old(readPos) <= readPos
      ensures r == DecodeList(data, old(readPos), depth, n) && (r.Ok? ==> readPos == r.pos)
      decreases |data| - readPos, 1
    {
      hide Decode, DecodeList, Attach, JoinVals;
      var vs, i := End, 0;
      NothingRead(data, readPos, depth, n);
      while i < n
        invariant i <= n && Valid() && old(readPos) <= readPos
        invariant DecodeList(data, old(readPos), depth, n) == Attach(vs, DecodeList(data, readPos, depth, n - i))
      {
        AttachOne(data, readPos, depth, n - i, vs);
        var x := DeserializeValue(depth);
        if x.Failure? {
          return Err(x.e);
        }
        vs := JoinVals(vs, Cons(x.v, End));
        i := i + 1;
      }
      AllRead(data, readPos, depth, vs);
      r := Ok(vs, readPos);
    }

    method ReadFields(n: nat, depth: nat, isMap: bool) returns (r: Parsed<Fields>)
      requires Valid()
      modifies `readPos
      ensures Valid() && old(readPos) <= readPos
      ensures r == DecodeFields(data, old(readPos), depth, n, NoMore, isMap) && (r.Ok? ==> readPos == r.pos)
      decreases |data| - readPos, 1
    {
      hide Decode, ReadNamed, Put, Extend, Name;
      var fs, i := NoMore, 0;
      while i < n
        invariant i <= n && Valid() && old(readPos) <= readPos
        invariant DecodeFields(data, old(readPos), depth, n, NoMore, isMap) == DecodeFields(data, readPos, depth, n - i, fs, isMap)
      {
        var key := ReadName();
        if key.Err? {
          return Err(key.e);
        }
        var x := DeserializeValue(depth);
        if x.Failure? {
          return Err(x.e);
        }
        fs := if isMap then Put(fs, Name(key.v), x.v) else Extend(fs, Name(key.v), x.v);
        i := i + 1;
      }
      r := Ok(fs, readPos);
    }

    // deserialize_value_internal.
    method DeserializeValue(depth: nat) returns (r: Outcome)
      requires Valid()
      modifies `readPos
      ensures Found(r, old(readPos), depth)
      decreases |data| - readPos, 0
    {
      hide Decode;
      if depth > MAX_DEPTH {
        TooDeep(data, readPos, depth);
        return Failure(Overflow);
      }
      var tag := ReadU8();
      if tag.Err? {
        NoTag(data, old(readPos), depth);
        return Failure(tag.e);
      }
      if tag.v == TAG_ARRAY || tag.v == TAG_MAP {
        r := ReadCollection(tag.v, depth);
      } else if tag.v == TAG_RESULT || tag.v == TAG_OPTION {
        r := ReadWrapped(tag.v, depth);
      } else if tag.v == TAG_STRUCT {
        r := ReadStructValue(depth);
      } else if tag.v == TAG_ENUM {
        r := ReadEnumValue(depth);
      } else {
        r := ReadLeafValue(tag.v, depth);
      }
    }

    // Behind its tag, each kind of value.
    ghost predicate Behind(tag: byte, depth: nat)
      reads this
    {
      0 < readPos <= |data| && data[readPos - 1] == tag && depth <= MAX_DEPTH
    }

    method ReadLeafValue(tag: byte, depth: nat) returns (r: Outcome)
      requires Behind(tag, depth) && tag !in {TAG_ARRAY, TAG_MAP, TAG_RESULT, TAG_OPTION, TAG_STRUCT, TAG_ENUM}
      modifies `readPos
      ensures Found(r, old(readPos) - 1, depth)
    {
      hide ReadBE, ReadSized, Signed;
      if tag == TAG_NIL {
        r := Value(Nil);
      } else if tag == TAG_BOOL {
        var b := ReadU8();
        r := if b.Err? then Failure(b.e) else Value(Bool(b.v != 0));
      } else if tag == TAG_INT || tag == TAG_FLOAT || tag == TAG_PID {
        var n := ReadU64();
        r := if n.Err? then Failure(n.e)
             else Value(if tag == TAG_INT then Int(Signed(n.v)) else if tag == TAG_FLOAT then Float(n.v) else Pid(n.v));
      } else if tag == TAG_STRING || tag == TAG_BYTES {
        var s := ReadString();
        r := if s.Err? then Failure(s.e) else Value(if tag == TAG_STRING then Str(s.v) else Bytes(s.v));
      } else {
        r := Failure(Unsupported);
      }
    }

    method ReadCollection(tag: byte, depth: nat) returns (r: Outcome)
      requires Behind(tag, depth) && (tag == TAG_ARRAY || tag == TAG_MAP)
      modifies `readPos
      ensures Found(r, old(readPos) - 1, depth)
      decreases |data| - readPos, 2
    {
      hide ReadBE, DecodeList, DecodeFields;
      var n := ReadU32();
      if n.Err? {
        return Failure(n.e);
      }
      if tag == TAG_ARRAY {
        var vs := ReadList(n.v, depth + 1);
        r := if vs.Err? then Failure(vs.e) else Value(Array(vs.v));
      } else {
        var fs := ReadFields(n.v, depth + 1, true);
        r := if fs.Err? then Failure(fs.e) else Value(Map(fs.v));
      }
    }

    method ReadWrapped(tag: byte, depth: nat) returns (r: Outcome)
      requires Behind(tag, depth) && (tag == TAG_RESULT || tag == TAG_OPTION)
      modifies `readPos
      ensures Found(r, old(readPos) - 1, depth)
      decreases |data| - readPos, 2
    {
      var b := ReadU8();
      if b.Err? {
        return Failure(b.e);
      }
      if tag == TAG_OPTION && b.v == 0 {
        return Value(NoneOf);
      }
      var x := DeserializeValue(depth + 1);
      r := if x.Failure? then x else Value(if tag == TAG_OPTION then SomeOf(x.v) else ResultOf(b.v != 0, x.v));
    }

    method ReadStructValue(depth: nat) returns (r: Outcome)
      requires Behind(TAG_STRUCT, depth)
      modifies `readPos
      ensures Found(r, old(readPos) - 1, depth)
      decreases |data| - readPos, 2
    {
      hide ReadBE, ReadNamed, DecodeFields, Name;
      var name := ReadName();
      if name.Err? {
        return Failure(name.e);
      }
      var n := ReadU32();
      if n.Err? {
        return Failure(n.e);
      }
      var fs := ReadFields(n.v, depth + 1, false);
      r := if fs.Err? then Failure(fs.e) else Value(Struct(Name(name.v), fs.v));
    }

    method ReadEnumValue(depth: nat) returns (r: Outcome)
      requires Behind(TAG_ENUM, depth)
      modifies `readPos
      ensures Found(r, old(readPos) - 1, depth)
      decreases |data| - readPos, 2
    {
      hide ReadNamed, Name;
      var name := ReadName();
      if name.Err? {
        return Failure(name.e);
      }
      var variant := ReadName();
      if variant.Err? {
        return Failure(variant.e);
      }
      var b := ReadU8();
      if b.Err? {
        return Failure(b.e);
      }
      if b.v == 0 {
        return Value(Unit(Name(name.v), Name(variant.v)));
      }
      var x := DeserializeValue(depth + 1);
      r := if x.Failure? then x else Value(Enum(Name(name.v), Name(variant.v), x.v));
    }
  }

  lemma WrappedShape(v: Val)
    requires v.ResultOf? || v.SomeOf?
    ensures Encode(v) == [if v.SomeOf? then TAG_OPTION else TAG_RESULT] + [if v.SomeOf? || v.ok then 1 else 0] + Encode(v.value)
    ensures Supported(v) <==> Supported(v.value)
  {
  }

  lemma Chained(front: seq<byte>, a: seq<byte>, b: seq<byte>, c: seq<byte>)
    ensures front + a + b + c == front + (a + b + c) == front + (a + (b + c))
  {
  }

  lemma NoTag(data: seq<byte>, pos: nat, depth: nat)
    requires pos == |data| && depth <= MAX_DEPTH
    ensures Decode(data, pos, depth) == Err(Corrupt)
  {
  }

  lemma NothingRead(data: seq<byte>, pos: nat, depth: nat, n: nat)
    requires pos <= |data|
    ensures DecodeList(data, pos, depth, n) == Attach(End, DecodeList(data, pos, depth, n))
  {
    hide DecodeList;
  }

  lemma AllRead(data: seq<byte>, pos: nat, depth: nat, vs: Vals)
    requires pos <= |data|
    ensures Attach(vs, DecodeList(data, pos, depth, 0)) == Ok(vs, pos)
  {
    JoinEnd(vs);
  }

  lemma Bytes4(n: nat)
    ensures BE(n, 4) == [n / 0x100_0000 % 256, n / 0x1_0000 % 256, n / 0x100 % 256, n % 256]
  {
    hide BE;
    Unroll(n, 3);
    Unroll(n / 0x100, 2);
    Unroll(n / 0x1_0000, 1);
    Unroll(n / 0x100_0000, 0);
    assert n / 256 / 256 == n / 0x1_0000 && n / 0x1_0000 / 256 == n / 0x100_0000;
    NoBytes(n / 0x1_0000_0000);
    assert n / 0x100_0000 / 256 == n / 0x1_0000_0000;
  }

  lemma NoBytes(n: nat)
    ensures BE(n, 0) == []
  {
  }

  lemma {:induction false} Low4(n: nat, k: nat)
    ensures BE(n, k + 4) == BE(n / 0x1_0000_0000, k) + BE(n, 4)
  {
    hide BE;
    Unroll(n, k + 3);
    Unroll(n / 256, k + 2);
    Unroll(n / 0x1_0000, k + 1);
    Unroll(n / 0x100_0000, k);
    assert n / 256 / 256 == n / 0x1_0000 && n / 0x1_0000 / 256 == n / 0x100_0000 && n / 0x100_0000 / 256 == n / 0x1_0000_0000;
    Bytes4(n);
    assert n / 0x100 % 256 == n / 256 % 256;
  }

  lemma Unroll(n: nat, k: nat)
    ensures BE(n, k + 1) == BE(n / 256, k) + [n % 256]
  {
  }

  lemma Bytes8(n: nat)
    ensures BE(n, 8) == [n / 0x100_0000_0000_0000 % 256, n / 0x1_0000_0000_0000 % 256, n / 0x100_0000_0000 % 256, n / 0x1_0000_0000 % 256,
                         n / 0x100_0000 % 256, n / 0x1_0000 % 256, n / 0x100 % 256, n % 256]
  {
    hide BE;
    var h := n / 0x1_0000_0000;
    Low4(n, 4);
    Bytes4(n);
    Bytes4(h);
    assert h / 0x100_0000 == n / 0x100_0000_0000_0000 && h / 0x1_0000 == n / 0x1_0000_0000_0000 && h / 0x100 == n / 0x100_0000_0000;
  }

  lemma Get4(data: seq<byte>, pos: nat)
    requires pos + 4 <= |data|
    ensures var a: nat, b: nat, c: nat, d: nat := data[pos], data[pos + 1], data[pos + 2], data[pos + 3];
            GetBE(data, pos, 4) == a * 0x100_0000 + b * 0x1_0000 + c * 0x100 + d
  {
    assert GetBE(data, pos, 1) == data[pos];
    assert GetBE(data, pos, 2) == GetBE(data, pos, 1) * 256 + data[pos + 1];
    assert GetBE(data, pos, 3) == GetBE(data, pos, 2) * 256 + data[pos + 2];
  }

  lemma Get8(data: seq<byte>, pos: nat)
    requires pos + 8 <= |data|
    ensures var a: nat, b: nat, c: nat, d: nat := data[pos], data[pos + 1], data[pos + 2], data[pos + 3];
            var e: nat, f: nat, g: nat, h: nat := data[pos + 4], data[pos + 5], data[pos + 6], data[pos + 7];
            GetBE(data, pos, 8) == a * 0x100_0000_0000_0000 + b * 0x1_0000_0000_0000 + c * 0x100_0000_0000 + d * 0x1_0000_0000
                                   + e * 0x100_0000 + f * 0x1_0000 + g * 0x100 + h
  {
    Get4(data, pos);
    assert GetBE(data, pos, 5) == GetBE(data, pos, 4) * 256 + data[pos + 4];
    assert GetBE(data, pos, 6) == GetBE(data, pos, 5) * 256 + data[pos + 5];
    assert GetBE(data, pos, 7) == GetBE(data, pos, 6) * 256 + data[pos + 6];
  }
}
