/** The checkpoint format of src/runtime/checkpoint.c. */
module Checkpoints {
  import opened Codec
  import opened SerialBuffers

  const MAGIC: nat := 0x41474D43
  const VERSION: nat := 1

  datatype Option<T> = None | Some(value: T)

  datatype Checkpoint = Checkpoint(version: nat, timestamp: nat, id: nat, pid: nat, name: Option<seq<byte>>, globals: seq<byte>,
                                   links: seq<nat>, parent: nat, capabilities: nat, reductions: nat, sent: nat, received: nat,
                                   mailboxCount: nat)

  // Fields have their C widths, and the name is a C string.
  predicate Fits(c: Checkpoint) {
    && c.version < U32 && c.timestamp < U64 && c.id < U64 && c.pid < U64
    && (c.name.Some? ==> IsName(c.name.value, U32)) && |c.globals| < U32 && |c.links| < U32
    && (forall i :: 0 <= i < |c.links| ==> c.links[i] < U64)
    && c.parent < U64 && c.capabilities < U32 && c.reductions < U64 && c.sent < U64 && c.received < U64 && c.mailboxCount < U32
  }

  function EncodeLinks(links: seq<nat>): (r: seq<byte>)
    ensures |r| == 8 * |links|
  {
    if links == [] then [] else BE(links[0], 8) + EncodeLinks(links[1..])
  }

  function NameOf(c: Checkpoint): seq<byte> {
    if c.name.None? then [] else c.name.value
  }

  // The fixed-width fields in front of and behind the three of variable width.
  function Header(c: Checkpoint): (r: seq<byte>)
    ensures |r| == 32
  {
    BE(MAGIC, 4) + (BE(c.version, 4) + (BE(c.timestamp, 8) + (BE(c.id, 8) + BE(c.pid, 8))))
  }

  function Trailer(c: Checkpoint): (r: seq<byte>)
    ensures |r| == 40
  {
    BE(c.parent, 8) + (BE(c.capabilities, 4) + (BE(c.reductions, 8) + (BE(c.sent, 8) + (BE(c.received, 8) + BE(c.mailboxCount, 4)))))
  }

  function EncodeCheckpoint(c: Checkpoint): seq<byte> {
    Header(c) + (Sized(NameOf(c)) + (Sized(c.globals) + (BE(|c.links| % U32, 4) + (EncodeLinks(c.links) + Trailer(c)))))
  }

  function DecodeLinks(data: seq<byte>, pos: nat, n: nat): (r: Parsed<seq<nat>>)
    ensures r.Ok? ==> r.pos == pos + 8 * n <= |data| || n == 0
    decreases n
  {
    if n == 0 then Ok([], pos)
    else
      match ReadBE(data, pos, 8)
      case Err(e) => Err(e)
      case Ok(l, p) => match DecodeLinks(data, p, n - 1) case Err(e) => Err(e) case Ok(ls, q) => Ok([l] + ls, q)
  }

  // The widths in front of the name and behind the links, and all the numbers at once.
  function ReadAll(data: seq<byte>, pos: nat, widths: seq<nat>): (r: Parsed<seq<nat>>)
    ensures r.Ok? ==> |r.v| == |widths|
    decreases |widths|
  {
    if widths == [] then Ok([], pos)
    else
      match ReadBE(data, pos, widths[0])
      case Err(e) => Err(e)
      case Ok(n, p) => match ReadAll(data, p, widths[1..]) case Err(e) => Err(e) case Ok(ns, q) => Ok([n] + ns, q)
  }

  // A name that cannot be read is left out; the length in front of it has been read all the same.
  function ReadName(data: seq<byte>, pos: nat): Parsed<Option<seq<byte>>> {
    match ReadNamed(data, pos)
    case Ok(s, p) => Ok(Some(Name(s)), p)
    case Err(e) => if e == Undersized then Err(e) else Ok(None, if ReadBE(data, pos, 4).Ok? then pos + 4 else pos)
  }

  const HEADER: seq<nat> := [4, 4, 8, 8, 8]
  const TRAILER: seq<nat> := [8, 4, 8, 8, 8, 4]

  function DecodeCheckpoint(data: seq<byte>, pos: nat): Parsed<Checkpoint> {
    match ReadAll(data, pos, HEADER)
    case Err(e) => Err(e)
    case Ok(h, p) =>
      if h[0] != MAGIC || h[1] > VERSION then Err(Corrupt)
      else
        match ReadName(data, p)
        case Err(e) => Err(e)
        case Ok(name, p1) =>
          match ReadSized(data, p1)
          case Err(e) => Err(e)
          case Ok(globals, p2) =>
            match ReadBE(data, p2, 4)
            case Err(e) => Err(e)
            case Ok(n, p3) =>
              match DecodeLinks(data, p3, n)
              case Err(e) => Err(e)
              case Ok(links, p4) =>
                match ReadAll(data, p4, TRAILER)
                case Err(e) => Err(e)
                case Ok(t, p5) =>
                  Ok(Checkpoint(h[1], h[2], h[3], h[4], name, globals, links, t[0], t[1], t[2], t[3], t[4], t[5]), p5)
  }

  lemma {:induction false} LinksUndo(links: seq<nat>, data: seq<byte>, pos: nat)
    requires At(data, pos, EncodeLinks(links)) && forall i :: 0 <= i < |links| ==> links[i] < U64
    ensures DecodeLinks(data, pos, |links|) == Ok(links, pos + 8 * |links|)
    decreases |links|
  {
    hide At, BE, ReadBE;
    if links != [] {
      Powers();
      AtSplit(data, pos, BE(links[0], 8), EncodeLinks(links[1..]));
      ReadUndoes(data, pos, links[0], 8);
      LinksUndo(links[1..], data, pos + 8);
      assert [links[0]] + links[1..] == links;
    }
  }

  function WriteAll(ns: seq<nat>, widths: seq<nat>): seq<byte>
    requires |ns| == |widths|
  {
    if ns == [] then [] else BE(ns[0], widths[0]) + WriteAll(ns[1..], widths[1..])
  }

  lemma {:induction false} AllUndo(ns: seq<nat>, widths: seq<nat>, data: seq<byte>, pos: nat)
    requires |ns| == |widths| && At(data, pos, WriteAll(ns, widths)) && forall i :: 0 <= i < |ns| ==> ns[i] < Pow256(widths[i])
    ensures ReadAll(data, pos, widths) == Ok(ns, pos + |WriteAll(ns, widths)|)
    decreases |ns|
  {
    hide At, BE, ReadBE, Pow256;
    if ns != [] {
      AtSplit(data, pos, BE(ns[0], widths[0]), WriteAll(ns[1..], widths[1..]));
      ReadUndoes(data, pos, ns[0], widths[0]);
      AllUndo(ns[1..], widths[1..], data, pos + widths[0]);
      assert [ns[0]] + ns[1..] == ns;
    }
  }

  lemma {:induction false} AllOne(n: nat, ns: seq<nat>, w: nat, widths: seq<nat>)
    requires |ns| == |widths|
    ensures WriteAll([n] + ns, [w] + widths) == BE(n, w) + WriteAll(ns, widths)
  {
    assert ([n] + ns)[1..] == ns && ([w] + widths)[1..] == widths;
  }

  lemma HeaderIs(c: Checkpoint)
    ensures WriteAll([MAGIC, c.version, c.timestamp, c.id, c.pid], HEADER) == Header(c)
  {
    hide WriteAll, BE;
    AllOne(MAGIC, [c.version, c.timestamp, c.id, c.pid], 4, [4, 8, 8, 8]);
    AllOne(c.version, [c.timestamp, c.id, c.pid], 4, [8, 8, 8]);
    AllOne(c.timestamp, [c.id, c.pid], 8, [8, 8]);
    AllOne(c.id, [c.pid], 8, [8]);
    AllOne(c.pid, [], 8, []);
    NoneLeft();
    assert [MAGIC, c.version, c.timestamp, c.id, c.pid] == [MAGIC] + [c.version, c.timestamp, c.id, c.pid];
    assert [c.version, c.timestamp, c.id, c.pid] == [c.version] + [c.timestamp, c.id, c.pid];
    assert [c.timestamp, c.id, c.pid] == [c.timestamp] + [c.id, c.pid];
    assert [c.id, c.pid] == [c.id] + [c.pid];
    assert HEADER == [4] + [4, 8, 8, 8] && [4, 8, 8, 8] == [4] + [8, 8, 8] && [8, 8, 8] == [8] + [8, 8] && [8, 8] == [8] + [8];
    assert [c.pid] == [c.pid] + [] && [8] == [8] + [];
  }

  lemma NoneLeft()
    ensures WriteAll([], []) == []
  {
  }

  lemma TrailerIs(c: Checkpoint)
    ensures WriteAll([c.parent, c.capabilities, c.reductions, c.sent, c.received, c.mailboxCount], TRAILER) == Trailer(c)
  {
    hide WriteAll, BE;
    AllOne(c.parent, [c.capabilities, c.reductions, c.sent, c.received, c.mailboxCount], 8, [4, 8, 8, 8, 4]);
    AllOne(c.capabilities, [c.reductions, c.sent, c.received, c.mailboxCount], 4, [8, 8, 8, 4]);
    AllOne(c.reductions, [c.sent, c.received, c.mailboxCount], 8, [8, 8, 4]);
    AllOne(c.sent, [c.received, c.mailboxCount], 8, [8, 4]);
    AllOne(c.received, [c.mailboxCount], 8, [4]);
    AllOne(c.mailboxCount, [], 4, []);
    NoneLeft();
    assert [c.parent, c.capabilities, c.reductions, c.sent, c.received, c.mailboxCount]
        == [c.parent] + [c.capabilities, c.reductions, c.sent, c.received, c.mailboxCount];
    assert [c.capabilities, c.reductions, c.sent, c.received, c.mailboxCount] == [c.capabilities] + [c.reductions, c.sent, c.received, c.mailboxCount];
    assert [c.reductions, c.sent, c.received, c.mailboxCount] == [c.reductions] + [c.sent, c.received, c.mailboxCount];
    assert [c.sent, c.received, c.mailboxCount] == [c.sent] + [c.received, c.mailboxCount];
    assert [c.received, c.mailboxCount] == [c.received] + [c.mailboxCount];
    assert TRAILER == [8] + [4, 8, 8, 8, 4] && [4, 8, 8, 8, 4] == [4] + [8, 8, 8, 4] && [8, 8, 8, 4] == [8] + [8, 8, 4];
    assert [8, 8, 4] == [8] + [8, 4] && [8, 4] == [8] + [4] && [4] == [4] + [] && [c.mailboxCount] == [c.mailboxCount] + [];
  }

  // Every field comes back from what was written, whatever follows; a missing name comes back empty.
  // Only a checkpoint of a later version is refused, and only the longest possible name is too long.
  lemma CheckpointRoundTrip(c: Checkpoint, data: seq<byte>, pos: nat)
    requires Fits(c) && At(data, pos, EncodeCheckpoint(c))
    ensures DecodeCheckpoint(data, pos) ==
            if c.version > VERSION then Err(Corrupt)
            else if |NameOf(c)| >= NAMES then Err(Undersized)
            else Ok(c.(name := Some(NameOf(c))), pos + |EncodeCheckpoint(c)|)
  {
    hide At, BE, ReadBE, ReadAll, ReadSized, Sized, Header, Trailer, EncodeLinks, DecodeLinks, Name, WriteAll, EncodeCheckpoint, Pow256, ReadName;
    Sections(c, data, pos);
    FrontUndo(c, data, pos);
    var p3 := pos + 40 + |NameOf(c)| + |c.globals|;
    Powers();
    ReadUndoes(data, p3, |c.links|, 4);
    LinksUndo(c.links, data, p3 + 4);
    TrailerIs(c);
    TrailerWidths(c);
    AllUndo([c.parent, c.capabilities, c.reductions, c.sent, c.received, c.mailboxCount], TRAILER, data, p3 + 4 + 8 * |c.links|);
  }

  // Where the sections of an encoded checkpoint stand.
  lemma Sections(c: Checkpoint, data: seq<byte>, pos: nat)
    requires Fits(c) && At(data, pos, EncodeCheckpoint(c))
    ensures var p1 := pos + 32;
            var p2 := p1 + 4 + |NameOf(c)|;
            var p3 := p2 + 4 + |c.globals|;
            && At(data, pos, Header(c)) && At(data, p1, Sized(NameOf(c))) && At(data, p2, Sized(c.globals))
            && At(data, p3, BE(|c.links|, 4)) && At(data, p3 + 4, EncodeLinks(c.links))
            && At(data, p3 + 4 + 8 * |c.links|, Trailer(c))
            && |EncodeCheckpoint(c)| == 84 + |NameOf(c)| + |c.globals| + 8 * |c.links|
  {
    hide At, BE, Sized, Header, Trailer, EncodeLinks;
    var links, t, n := EncodeLinks(c.links), Trailer(c), BE(|c.links| % U32, 4);
    var p1 := pos + 32;
    var p2 := p1 + 4 + |NameOf(c)|;
    var p3 := p2 + 4 + |c.globals|;
    AtSplit(data, pos, Header(c), Sized(NameOf(c)) + (Sized(c.globals) + (n + (links + t))));
    AtSplit(data, p1, Sized(NameOf(c)), Sized(c.globals) + (n + (links + t)));
    AtSplit(data, p2, Sized(c.globals), n + (links + t));
    AtSplit(data, p3, n, links + t);
    AtSplit(data, p3 + 4, links, t);
  }

  lemma FrontUndo(c: Checkpoint, data: seq<byte>, pos: nat)
    requires Fits(c) && At(data, pos, Header(c)) && At(data, pos + 32, Sized(NameOf(c)))
    requires At(data, pos + 36 + |NameOf(c)|, Sized(c.globals))
    ensures ReadAll(data, pos, HEADER) == Ok([MAGIC, c.version, c.timestamp, c.id, c.pid], pos + 32)
    ensures ReadName(data, pos + 32) == if |NameOf(c)| < NAMES then Ok(Some(NameOf(c)), pos + 36 + |NameOf(c)|) else Err(Undersized)
    ensures ReadSized(data, pos + 36 + |NameOf(c)|) == Ok(c.globals, pos + 40 + |NameOf(c)| + |c.globals|)
  {
    hide At, BE, ReadBE, ReadAll, ReadSized, Sized, Header, Name, WriteAll, Pow256, ReadNamed;
    HeaderIs(c);
    HeaderWidths(c);
    AllUndo([MAGIC, c.version, c.timestamp, c.id, c.pid], HEADER, data, pos);
    NameReadIff(data, pos + 32, NameOf(c));
    SizedUndoes(data, pos + 36 + |NameOf(c)|, c.globals);
  }

  lemma HeaderWidths(c: Checkpoint)
    requires Fits(c)
    ensures var ns := [MAGIC, c.version, c.timestamp, c.id, c.pid]; forall i :: 0 <= i < |ns| ==> ns[i] < Pow256(HEADER[i])
  {
    hide Pow256;
    Powers();
  }

  lemma TrailerWidths(c: Checkpoint)
    requires Fits(c)
    ensures var ns := [c.parent, c.capabilities, c.reductions, c.sent, c.received, c.mailboxCount];
            forall i :: 0 <= i < |ns| ==> ns[i] < Pow256(TRAILER[i])
  {
    hide Pow256;
    Powers();
  }

  // checkpoint_serialize.
  method Save(c: Checkpoint, buf: SerialBuffer)
    modifies buf
    ensures buf.data == old(buf.data) + EncodeCheckpoint(c) && buf.readPos == old(buf.readPos)
  {
    hide BE, Sized, Header, Trailer, EncodeLinks, EncodeCheckpoint;
    SaveHeader(c, buf);
    buf.WriteString(NameOf(c));
    buf.WriteString(c.globals);
    buf.WriteU32(|c.links| % U32);
    SaveLinks(c.links, buf);
    SaveTrailer(c, buf);
    Assembled(c, old(buf.data));
  }

  method SaveHeader(c: Checkpoint, buf: SerialBuffer)
    modifies buf
    ensures buf.data == old(buf.data) + Header(c) && buf.readPos == old(buf.readPos)
  {
    hide BE;
    buf.WriteU32(MAGIC);
    buf.WriteU32(c.version);
    buf.WriteU64(c.timestamp);
    buf.WriteU64(c.id);
    buf.WriteU64(c.pid);
  }

  method SaveLinks(links: seq<nat>, buf: SerialBuffer)
    modifies buf
    ensures buf.data == old(buf.data) + EncodeLinks(links) && buf.readPos == old(buf.readPos)
  {
    hide BE;
    var i := 0;
    while i < |links|
      invariant i <= |links| && buf.readPos == old(buf.readPos)
      invariant buf.data + EncodeLinks(links[i..]) == old(buf.data) + EncodeLinks(links)
    {
      ghost var before := buf.data;
      buf.WriteU64(links[i]);
      assert links[i..][1..] == links[i + 1..];
      assert before + (BE(links[i], 8) + EncodeLinks(links[i + 1..])) == buf.data + EncodeLinks(links[i + 1..]);
      i := i + 1;
    }
  }

  method SaveTrailer(c: Checkpoint, buf: SerialBuffer)
    modifies buf
    ensures buf.data == old(buf.data) + Trailer(c) && buf.readPos == old(buf.readPos)
  {
    hide BE;
    buf.WriteU64(c.parent);
    buf.WriteU32(c.capabilities);
    buf.WriteU64(c.reductions);
    ghost var mid := buf.data;
    assert mid == old(buf.data) + (BE(c.parent, 8) + (BE(c.capabilities, 4) + BE(c.reductions, 8)));
    buf.WriteU64(c.sent);
    buf.WriteU64(c.received);
    buf.WriteU32(c.mailboxCount);
    assert buf.data == mid + (BE(c.sent, 8) + (BE(c.received, 8) + BE(c.mailboxCount, 4)));
  }

  lemma Assembled(c: Checkpoint, d: seq<byte>)
    ensures d + Header(c) + Sized(NameOf(c)) + Sized(c.globals) + BE(|c.links| % U32, 4) + EncodeLinks(c.links) + Trailer(c)
         == d + EncodeCheckpoint(c)
  {
    hide Header, Sized, BE, EncodeLinks, Trailer;
    var h, n, g, k, l, t := Header(c), Sized(NameOf(c)), Sized(c.globals), BE(|c.links| % U32, 4), EncodeLinks(c.links), Trailer(c);
    Chained(d, h, n, g + (k + (l + t)));
    Chained(d + h + n, g, k, l + t);
    assert d + h + n + g + k + l + t == d + h + n + g + k + (l + t);
  }

  // Read one number into a list of numbers.
  method ReadNumbers(widths: seq<nat>, buf: SerialBuffer) returns (r: Parsed<seq<nat>>)
    requires buf.Valid() && forall i :: 0 <= i < |widths| ==> widths[i] == 4 || widths[i] == 8
    modifies buf
    ensures buf.Valid() && buf.data == old(buf.data) && r == ReadAll(buf.data, old(buf.readPos), widths)
    ensures r.Ok? ==> buf.readPos == r.pos
    decreases |widths|
  {
    hide ReadBE;
    if widths == [] {
      return Ok([], buf.readPos);
    }
    var n;
    if widths[0] == 4 {
      n := buf.ReadU32();
    } else {
      n := buf.ReadU64();
    }
    if n.Err? {
      return Err(n.e);
    }
    var rest := ReadNumbers(widths[1..], buf);
    r := if rest.Err? then Err(rest.e) else Ok([n.v] + rest.v, buf.readPos);
  }

  method LoadLinks(n: nat, buf: SerialBuffer) returns (r: Parsed<seq<nat>>)
    requires buf.Valid()
    modifies buf
    ensures buf.Valid() && buf.data == old(buf.data) && r == DecodeLinks(buf.data, old(buf.readPos), n)
    ensures r.Ok? ==> buf.readPos == r.pos
    decreases n
  {
    hide ReadBE;
    if n == 0 {
      return Ok([], buf.readPos);
    }
    var l := buf.ReadU64();
    if l.Err? {
      return Err(l.e);
    }
    var rest := LoadLinks(n - 1, buf);
    r := if rest.Err? then Err(rest.e) else Ok([l.v] + rest.v, buf.readPos);
  }

  method LoadName(buf: SerialBuffer) returns (r: Parsed<Option<seq<byte>>>)
    requires buf.Valid()
    modifies buf
    ensures buf.Valid() && buf.data == old(buf.data) && r == ReadName(buf.data, old(buf.readPos)) && (r.Ok? ==> buf.readPos == r.pos)
  {
    hide ReadBE, Name, ReadNamed;
    var s := buf.ReadName();
    if s.Err? {
      r := if s.e == Undersized then Err(s.e) else Ok(None, buf.readPos);
    } else {
      r := Ok(Some(Name(s.v)), buf.readPos);
    }
  }

  // checkpoint_deserialize.
  method Load(buf: SerialBuffer) returns (r: Parsed<Checkpoint>)
    requires buf.Valid()
    modifies buf
    ensures buf.data == old(buf.data) && r == DecodeCheckpoint(buf.data, old(buf.readPos))
  {
    hide ReadBE, ReadAll, ReadSized, DecodeLinks, ReadName;
    var h := ReadNumbers(HEADER, buf);
    if h.Err? {
      return Err(h.e);
    }
    if h.v[0] != MAGIC || h.v[1] > VERSION {
      return Err(Corrupt);
    }
    var name := LoadName(buf);
    if name.Err? {
      return Err(name.e);
    }
    var globals := buf.ReadString();
    if globals.Err? {
      return Err(globals.e);
    }
    var n := buf.ReadU32();
    if n.Err? {
      return Err(n.e);
    }
    var links := LoadLinks(n.v, buf);
    if links.Err? {
      return Err(links.e);
    }
    var t := ReadNumbers(TRAILER, buf);
    if t.Err? {
      return Err(t.e);
    }
    r := Ok(Checkpoint(h.v[1], h.v[2], h.v[3], h.v[4], name.v, globals.v, links.v, t.v[0], t.v[1], t.v[2], t.v[3], t.v[4], t.v[5]), buf.readPos);
  }
}
