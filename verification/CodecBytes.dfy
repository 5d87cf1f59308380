/** The bytes of the codec (src/runtime/serialize.c): which byte a value starts with, that a value that is cut
    short is refused, and that bytes which no value starts with are.
 */
module CodecBytes {
  import opened Codec

  // --- The first byte ---

  function Kind(v: Val): byte {
    match v
    case Nil => 0
    case Bool(_) => 1
    case Int(_) => 2
    case Float(_) => 3
    case Str(_) => 4
    case Array(_) => 5
    case Map(_) => 6
    case Pid(_) => 7
    case Bytes(_) => 9
    case ResultOf(_, _) => 10
    case NoneOf => 11
    case SomeOf(_) => 11
    case Struct(_, _) => 12
    case Unit(_, _) => 13
    case Enum(_, _, _) => 13
    case Opaque => 8
  }

  // What is written starts with the byte of its kind,
  lemma KindWritten(v: Val)
    requires v != Opaque
    ensures |Encode(v)| > 0 && Encode(v)[0] == Kind(v)
  {
    hide Sized, BE;
  }

  // what is read started with it,
  lemma KindRead(data: seq<byte>, pos: nat, depth: nat)
    requires pos <= |data|
    ensures var r := Decode(data, pos, depth); r.Ok? ==> pos < |data| && r.v != Opaque && data[pos] == Kind(r.v)
  {
    hide ReadBE, ReadSized, ReadNamed, DecodeList, DecodeFields, Name, Signed;
  }

  // and all other bytes, and none, are refused.
  lemma KindUnknown(data: seq<byte>, pos: nat, depth: nat)
    requires pos <= |data| && depth <= 100
    ensures Decode(data, pos, depth) == Err(Unsupported) <== pos < |data| && (data[pos] == 8 || data[pos] > 13)
    ensures Decode(data, pos, depth) == Err(Corrupt) <== pos == |data|
  {
    hide ReadBE, ReadSized, ReadNamed, DecodeList, DecodeFields, Name, Signed;
  }

  // --- Numbers ---

  lemma Low(n: nat, k: nat)
    ensures k > 0 ==> BE(n, k) == BE(n / 256, k - 1) + [n % 256]
    ensures k == 0 ==> BE(n, k) == []
  {
  }

  // Numbers of 32 bits stand with the high byte first, and so does the length in front of bytes.
  lemma HighByteFirst(n: nat)
    ensures BE(n, 4) == [n / 256 / 256 / 256 % 256, n / 256 / 256 % 256, n / 256 % 256, n % 256]
  {
    hide BE;
    Low(n, 4);
    Low(n / 256, 3);
    Low(n / 256 / 256, 2);
    Low(n / 256 / 256 / 256, 1);
    Low(n / 256 / 256 / 256 / 256, 0);
  }

  // Two 32-bit halves, the high one first; negative integers as two's complement.
  lemma HalvesOf(n: nat)
    ensures BE(n, 8) == BE(n / 0x1_0000_0000, 4) + BE(n, 4)
  {
    HighByteFirst(n);
    HighByteFirst(n / 0x1_0000_0000);
    hide BE;
    Low(n, 8);
    Low(n / 256, 7);
    Low(n / 256 / 256, 6);
    Low(n / 256 / 256 / 256, 5);
    assert n / 256 / 256 / 256 / 256 == n / 0x1_0000_0000;
  }

  lemma NegativeInt(i: int)
    requires -0x8000_0000_0000_0000 <= i < 0
    ensures Encode(Int(i)) == [2] + BE(i + 0x1_0000_0000_0000_0000, 8)
  {
    hide BE;
  }

  // --- Bytes cut short ---

  // What does not depend on bytes behind the end: everything but the error that they are missing.
  ghost predicate Same<T>(r: Parsed<T>, r': Parsed<T>) {
    r != Err(Corrupt) ==> r' == r
  }

  lemma {:induction false} GetSame(data: seq<byte>, more: seq<byte>, pos: nat, k: nat)
    requires pos + k <= |data|
    ensures GetBE(data + more, pos, k) == GetBE(data, pos, k)
    decreases k
  {
    if k > 0 {
      GetSame(data, more, pos, k - 1);
      assert (data + more)[pos + k - 1] == data[pos + k - 1];
    }
  }

  lemma ReadSame(data: seq<byte>, more: seq<byte>, pos: nat, k: nat)
    ensures Same(ReadBE(data, pos, k), ReadBE(data + more, pos, k))
  {
    if pos + k <= |data| {
      GetSame(data, more, pos, k);
    }
  }

  lemma SizedSame(data: seq<byte>, more: seq<byte>, pos: nat)
    ensures Same(ReadSized(data, pos), ReadSized(data + more, pos)) && Same(ReadNamed(data, pos), ReadNamed(data + more, pos))
  {
    ReadSame(data, more, pos, 4);
    hide ReadBE;
    var n := ReadBE(data, pos, 4);
    if n.Ok? && n.pos + n.v <= |data| {
      assert (data + more)[n.pos..n.pos + n.v] == data[n.pos..n.pos + n.v];
    }
  }

  lemma {:induction false} DecodeSame(data: seq<byte>, more: seq<byte>, pos: nat, depth: nat)
    requires pos <= |data|
    ensures Same(Decode(data, pos, depth), Decode(data + more, pos, depth))
    decreases |data| - pos, 2
  {
    if depth <= MAX_DEPTH && pos < |data| {
      var tag := data[pos];
      assert (data + more)[pos] == tag;
      if tag == TAG_ARRAY || tag == TAG_MAP {
        CollectionSame(data, more, pos, depth);
      } else if tag == TAG_STRUCT {
        StructSame(data, more, pos, depth);
      } else if tag == TAG_ENUM {
        EnumSame(data, more, pos, depth);
      } else if tag == TAG_RESULT || tag == TAG_OPTION {
        hide DecodeList, DecodeFields;
        if pos + 1 < |data| {
          assert (data + more)[pos + 1] == data[pos + 1];
          DecodeSame(data, more, pos + 2, depth + 1);
        }
      } else {
        LeafSame(data, more, pos, depth);
      }
    }
  }

  lemma LeafSame(data: seq<byte>, more: seq<byte>, pos: nat, depth: nat)
    requires pos < |data| && depth <= MAX_DEPTH && (data[pos] <= 4 || 7 <= data[pos] <= 9 || data[pos] > 13)
    ensures Same(Decode(data, pos, depth), Decode(data + more, pos, depth))
  {
    hide ReadBE, ReadSized, ReadNamed, DecodeList, DecodeFields, Signed;
    assert (data + more)[pos] == data[pos] && (pos + 1 < |data| ==> (data + more)[pos + 1] == data[pos + 1]);
    ReadSame(data, more, pos + 1, 8);
    SizedSame(data, more, pos + 1);
  }

  lemma {:induction false} CollectionSame(data: seq<byte>, more: seq<byte>, pos: nat, depth: nat)
    requires pos < |data| && depth <= MAX_DEPTH && (data[pos] == TAG_ARRAY || data[pos] == TAG_MAP)
    ensures Same(Decode(data, pos, depth), Decode(data + more, pos, depth))
    decreases |data| - pos, 1
  {
    hide ReadBE, DecodeList, DecodeFields;
    assert (data + more)[pos] == data[pos];
    var n := ReadBE(data, pos + 1, 4);
    ReadSame(data, more, pos + 1, 4);
    if n.Ok? {
      if data[pos] == TAG_ARRAY {
        ListSame(data, more, n.pos, depth + 1, n.v);
      } else {
        FieldsSame(data, more, n.pos, depth + 1, n.v, NoMore, true);
      }
    }
  }

  lemma {:induction false} StructSame(data: seq<byte>, more: seq<byte>, pos: nat, depth: nat)
    requires pos < |data| && depth <= MAX_DEPTH && data[pos] == TAG_STRUCT
    ensures Same(Decode(data, pos, depth), Decode(data + more, pos, depth))
    decreases |data| - pos, 1
  {
    hide ReadBE, ReadNamed, DecodeFields, Name;
    assert (data + more)[pos] == data[pos];
    var name := ReadNamed(data, pos + 1);
    SizedSame(data, more, pos + 1);
    if name.Ok? {
      var n := ReadBE(data, name.pos, 4);
      ReadSame(data, more, name.pos, 4);
      if n.Ok? {
        FieldsSame(data, more, n.pos, depth + 1, n.v, NoMore, false);
      }
    }
  }

  lemma {:induction false} EnumSame(data: seq<byte>, more: seq<byte>, pos: nat, depth: nat)
    requires pos < |data| && depth <= MAX_DEPTH && data[pos] == TAG_ENUM
    ensures Same(Decode(data, pos, depth), Decode(data + more, pos, depth))
    decreases |data| - pos, 1
  {
    hide ReadNamed, Name;
    assert (data + more)[pos] == data[pos];
    var name := ReadNamed(data, pos + 1);
    SizedSame(data, more, pos + 1);
    if name.Ok? {
      var variant := ReadNamed(data, name.pos);
      SizedSame(data, more, name.pos);
      if variant.Ok? && variant.pos < |data| {
        assert (data + more)[variant.pos] == data[variant.pos];
        DecodeSame(data, more, variant.pos + 1, depth + 1);
      }
    }
  }

  lemma {:induction false} ListSame(data: seq<byte>, more: seq<byte>, pos: nat, depth: nat, n: nat)
    requires pos <= |data|
    ensures Same(DecodeList(data, pos, depth, n), DecodeList(data + more, pos, depth, n))
    decreases |data| - pos, 3
  {
    hide Decode;
    if n > 0 {
      DecodeSame(data, more, pos, depth);
      var v := Decode(data, pos, depth);
      if v.Ok? {
        ListSame(data, more, v.pos, depth, n - 1);
      }
    }
  }

  lemma {:induction false} FieldsSame(data: seq<byte>, more: seq<byte>, pos: nat, depth: nat, n: nat, sofar: Fields, isMap: bool)
    requires pos <= |data|
    ensures Same(DecodeFields(data, pos, depth, n, sofar, isMap), DecodeFields(data + more, pos, depth, n, sofar, isMap))
    decreases |data| - pos, 3
  {
    hide Decode, ReadNamed, Name, Put, Extend;
    if n > 0 {
      SizedSame(data, more, pos);
      var key := ReadNamed(data, pos);
      if key.Ok? {
        DecodeSame(data, more, key.pos, depth);
        var v := Decode(data, key.pos, depth);
        if v.Ok? {
          FieldsSame(data, more, v.pos, depth, n - 1, if isMap then Put(sofar, Name(key.v), v.v) else Extend(sofar, Name(key.v), v.v), isMap);
        }
      }
    }
  }

  // Of a value that can be read back, no proper beginning can: the reader says that bytes are missing.
  lemma CutShort(v: Val, n: nat)
    requires Good(v, NAMES) && Depth(v) <= 100 && n < |Encode(v)|
    ensures Decode(Encode(v)[..n], 0, 0) == Err(Corrupt)
  {
    hide Decode, Encode, Depth, Good;
    var data, more := Encode(v)[..n], Encode(v)[n..];
    assert data + more == Encode(v) && Encode(v)[0..|Encode(v)|] == Encode(v);
    DecodeSame(data, more, 0, 0);
    RoundTrip(v, Encode(v), 0, 0);
  }
}
