/** Splitting, joining and replacing of src/types/string.c, on strings without a NUL. */
module Strings {

  const SIZE_MAX: nat := 0xFFFF_FFFF_FFFF_FFFF

  // Sizes are computed modulo this.
  const SIZES: nat := SIZE_MAX + 1

  // A string; nil; or a buffer that is too small for what is written to it, after which nothing is certain.
  datatype Outcome = Text(s: string) | Nothing | Undersized

  function Wrapped(n: nat): nat {
    n % SIZES
  }

  // The size asked for to hold n characters and the terminator.
  function Asked(n: nat): nat {
    Wrapped(n + 1)
  }

  // It is enough if and only if the sum does not wrap around.
  lemma AskedIff(n: nat)
    ensures Asked(n) >= n + 1 <==> n < SIZE_MAX
  {
  }

  lemma Wraps(n: nat, k: nat)
    ensures Wrapped(Wrapped(n) + k) == Wrapped(n + k)
  {
    var q, r := n / SIZES, n % SIZES;
    assert n == q * SIZES + r;
    assert n + k == q * SIZES + (r + k);
    Turns(q, r + k);
  }

  lemma {:induction false} Turns(q: nat, r: nat)
    ensures (q * SIZES + r) % SIZES == r % SIZES
    decreases q
  {
    if q > 0 {
      Turns(q - 1, r);
      assert q * SIZES + r == (q - 1) * SIZES + r + SIZES;
    }
  }

  predicate Occurs(s: string, d: string, i: nat) {
    i + |d| <= |s| && s[i..i + |d|] == d
  }

  // strstr: the first occurrence from a position on, or -1.
  function Next(s: string, d: string, from: nat): (i: int)
    requires from <= |s|
    ensures i < 0 ==> i == -1 && forall k :: from <= k ==> !Occurs(s, d, k)
    ensures i >= 0 ==> from <= i && Occurs(s, d, i) && forall k :: from <= k < i ==> !Occurs(s, d, k)
    decreases |s| - from
  {
    if Occurs(s, d, from) then from
    else if from == |s| then -1
    else Next(s, d, from + 1)
  }

  // --- What the operations compute ---

  function Pieces(s: string, d: string, from: nat): (r: seq<string>)
    requires from <= |s| && d != ""
    ensures |r| > 0
    decreases |s| - from
  {
    var i := Next(s, d, from);
    if i < 0 then [s[from..]] else [s[from..i]] + Pieces(s, d, i + |d|)
  }

  function Joined(ps: seq<string>, sep: string): string {
    if ps == [] then "" else if |ps| == 1 then ps[0] else ps[0] + sep + Joined(ps[1..], sep)
  }

  function Replaced(s: string, a: string, b: string, from: nat): string
    requires from <= |s| && a != ""
    decreases |s| - from
  {
    var i := Next(s, a, from);
    if i < 0 then s[from..] else s[from..i] + b + Replaced(s, a, b, i + |a|)
  }

  function Count(s: string, a: string, from: nat): nat
    requires from <= |s| && a != ""
    decreases |s| - from
  {
    var i := Next(s, a, from);
    if i < 0 then 0 else 1 + Count(s, a, i + |a|)
  }

  // --- How they are related ---

  lemma PiecesFrom(s: string, d: string, from: nat)
    requires from <= |s| && d != ""
    ensures var i := Next(s, d, from);
            Pieces(s, d, from) == if i < 0 then [s[from..]] else [s[from..i]] + Pieces(s, d, i + |d|)
  {
    hide Next;
  }

  lemma JoinedCons(p: string, ps: seq<string>, sep: string)
    requires ps != []
    ensures Joined([p] + ps, sep) == p + sep + Joined(ps, sep)
  {
    assert ([p] + ps)[1..] == ps;
  }

  lemma JoinedSingle(p: string, sep: string)
    ensures Joined([p], sep) == p
  {
  }

  // Replacing is splitting at the old and joining with the new.
  lemma {:induction false} ReplaceIsJoinSplit(s: string, a: string, b: string, from: nat)
    requires from <= |s| && a != ""
    ensures Replaced(s, a, b, from) == Joined(Pieces(s, a, from), b)
    decreases |s| - from
  {
    hide Next, Joined, Replaced, Pieces;
    var i := Next(s, a, from);
    ReplacedFrom(s, a, b, from);
    PiecesFrom(s, a, from);
    if i >= 0 {
      ReplaceIsJoinSplit(s, a, b, i + |a|);
      JoinedCons(s[from..i], Pieces(s, a, i + |a|), b);
    } else {
      JoinedSingle(s[from..], b);
    }
  }

  // Joining a split at the same delimiter gives the string back.
  lemma {:induction false} JoinUndoesSplit(s: string, d: string, from: nat)
    requires from <= |s| && d != ""
    ensures Joined(Pieces(s, d, from), d) == s[from..]
    decreases |s| - from
  {
    hide Next, Joined, Pieces;
    var i := Next(s, d, from);
    PiecesFrom(s, d, from);
    if i >= 0 {
      JoinUndoesSplit(s, d, i + |d|);
      JoinedCons(s[from..i], Pieces(s, d, i + |d|), d);
      assert s[from..] == s[from..i] + s[i..i + |d|] + s[i + |d|..];
    } else {
      JoinedSingle(s[from..], d);
    }
  }

  // No piece contains the delimiter, and there is one more piece than there are replacements.
  lemma {:induction false} PiecesClean(s: string, d: string, from: nat)
    requires from <= |s| && d != ""
    ensures |Pieces(s, d, from)| == Count(s, d, from) + 1
    ensures forall p, k: nat :: p in Pieces(s, d, from) ==> !Occurs(p, d, k)
    decreases |s| - from
  {
    var i := Next(s, d, from);
    if i >= 0 {
      PiecesClean(s, d, i + |d|);
      NoneInside(s, d, from, i);
    } else {
      NoneInside(s, d, from, |s|);
      assert s[from..] == s[from..|s|];
    }
  }

  lemma NoneInside(s: string, d: string, from: nat, to: nat)
    requires from <= to <= |s| && d != "" && forall k :: from <= k < to ==> !Occurs(s, d, k)
    ensures forall k: nat :: !Occurs(s[from..to], d, k)
  {
    forall k: nat ensures !Occurs(s[from..to], d, k) {
      Shifted(s, d, from, to, k);
    }
  }

  lemma Shifted(s: string, d: string, from: nat, to: nat, k: nat)
    requires from <= to <= |s| && d != ""
    ensures Occurs(s[from..to], d, k) ==> Occurs(s, d, from + k) && from + k < to
  {
    if k + |d| <= to - from {
      var x, y := s[from..to][k..k + |d|], s[from + k..from + k + |d|];
      assert |x| == |y| && forall j :: 0 <= j < |x| ==> x[j] == y[j];
      assert x == y;
    }
  }

  // What the counting pass computes is the length of what the copying pass writes.
  lemma {:induction false} LengthCounted(s: string, a: string, b: string, from: nat)
    requires from <= |s| && a != ""
    ensures |Replaced(s, a, b, from)| == |s| - from + Count(s, a, from) * |b| - Count(s, a, from) * |a|
    ensures Count(s, a, from) * |a| <= |s| - from
    decreases |s| - from
  {
    hide Next;
    var i := Next(s, a, from);
    if i >= 0 {
      LengthCounted(s, a, b, i + |a|);
      var n := Count(s, a, i + |a|);
      Times(n, |a|);
      Times(n, |b|);
    }
  }

  lemma Times(n: nat, k: nat)
    ensures (1 + n) * k == k + n * k
  {
  }

  // --- The programs ---

  method Split(s: string, d: string) returns (r: seq<string>)
    ensures d == "" ==> |r| == |s| && forall i :: 0 <= i < |s| ==> r[i] == [s[i]]
    ensures d != "" ==> r == Pieces(s, d, 0)
  {
    hide Next, Pieces;
    r := [];
    if d == "" {
      var i := 0;
      while i < |s|
        invariant i <= |s| && |r| == i && forall k :: 0 <= k < i ==> r[k] == [s[k]]
      {
        r := r + [[s[i]]];
        i := i + 1;
      }
      return;
    }
    var start := 0;
    var pos := Next(s, d, start);
    while pos >= 0
      invariant start <= |s| && pos == Next(s, d, start) && r + Pieces(s, d, start) == Pieces(s, d, 0)
      decreases |s| - start
    {
      PiecesFrom(s, d, start);
      PushOne(r, s[start..pos], Pieces(s, d, pos + |d|));
      r := r + [s[start..pos]];
      start := pos + |d|;
      pos := Next(s, d, start);
    }
    PiecesFrom(s, d, start);
    r := r + [s[start..]];
  }

  lemma PushOne(r: seq<string>, p: string, rest: seq<string>)
    ensures r + ([p] + rest) == r + [p] + rest
  {
  }

  // memcpy.
  method Copy(buf: array<char>, at: nat, s: string)
    requires at + |s| <= buf.Length
    modifies buf
    ensures buf[..at + |s|] == old(buf[..at]) + s
  {
    var i := 0;
    while i < |s|
      invariant i <= |s| && buf[..at + i] == old(buf[..at]) + s[..i]
    {
      buf[at + i] := s[i];
      i := i + 1;
    }
  }

  method CopyTwo(buf: array<char>, at: nat, s: string, t: string)
    requires at + |s| + |t| <= buf.Length
    modifies buf
    ensures buf[..at + |s| + |t|] == old(buf[..at]) + s + t
  {
    Copy(buf, at, s);
    Copy(buf, at + |s|, t);
  }

  lemma JoinedFrom(ps: seq<string>, sep: string, i: nat)
    requires i < |ps|
    ensures Joined(ps[i..], sep) == if i == |ps| - 1 then ps[i] else ps[i] + sep + Joined(ps[i + 1..], sep)
    ensures Joined(ps[|ps|..], sep) == ""
  {
    assert ps[i..][1..] == ps[i + 1..];
  }

  // The first pass adds up the length, modulo the range of sizes, and the second writes into a buffer of
  // that length and one for the terminator: enough exactly if the whole is shorter than the greatest size.
  method Join(ps: seq<string>, sep: string) returns (r: Outcome)
    ensures r == if |Joined(ps, sep)| < SIZE_MAX then Text(Joined(ps, sep)) else Undersized
  {
    hide Joined, Wrapped;
    if ps == [] {
      JoinedNone(sep);
      return Text("");
    }
    var total: nat, written: nat, i := 0, 0, 0;
    Unwrapped(0);
    assert ps[0..] == ps;
    while i < |ps|
      invariant i <= |ps| && written + |Joined(ps[i..], sep)| == |Joined(ps, sep)| && total == Wrapped(written)
    {
      JoinedFrom(ps, sep, i);
      Wraps(written, |ps[i]|);
      Wraps(written + |ps[i]|, |sep|);
      total, written := Wrapped(total + |ps[i]|), written + |ps[i]|;
      if i < |ps| - 1 {
        total, written := Wrapped(total + |sep|), written + |sep|;
      }
      i := i + 1;
    }
    JoinedFrom(ps, sep, 0);
    Wraps(written, 1);
    AskedIff(written);
    if Wrapped(total + 1) < written + 1 {
      return Undersized;
    }
    Unwrapped(written);
    var t := WriteJoined(ps, sep, total);
    r := Text(t);
  }

  lemma Unwrapped(n: nat)
    requires n <= SIZE_MAX
    ensures Wrapped(n) == n
  {
  }

  method WriteJoined(ps: seq<string>, sep: string, total: nat) returns (r: string)
    requires ps != [] && total == |Joined(ps, sep)|
    ensures r == Joined(ps, sep)
  {
    hide Joined;
    var buf := new char[total + 1];
    var at, i := 0, 0;
    assert ps[0..] == ps;
    ghost var done, rest := "", Joined(ps, sep);
    while i < |ps|
      invariant i <= |ps| && buf.Length == total + 1 && 0 <= at <= total && buf[..at] == done
      invariant done + rest == Joined(ps, sep) && rest == Joined(ps[i..], sep) && (i == |ps| ==> rest == "")
    {
      JoinedFrom(ps, sep, i);
      if i < |ps| - 1 {
        CopyTwo(buf, at, ps[i], sep);
        at := at + |ps[i]| + |sep|;
        Regroup(done, ps[i], sep, Joined(ps[i + 1..], sep));
        done, rest := done + ps[i] + sep, Joined(ps[i + 1..], sep);
      } else {
        Copy(buf, at, ps[i]);
        at := at + |ps[i]|;
        Regroup(done, ps[i], "", "");
        done, rest := done + ps[i], "";
      }
      i := i + 1;
    }
    assert done + "" == done;
    buf[at] := '\0';
    r := buf[..at];
  }

  lemma Regroup(front: string, a: string, b: string, c: string)
    ensures front + (a + b + c) == front + a + b + c
  {
  }

  lemma JoinedNone(sep: string)
    ensures Joined([], sep) == ""
  {
  }

  // The counting pass.
  method CountAll(s: string, a: string) returns (n: nat)
    requires a != ""
    ensures n == Count(s, a, 0)
  {
    hide Next;
    n := 0;
    var from := 0;
    var pos := Next(s, a, from);
    while pos >= 0
      invariant from <= |s| && pos == Next(s, a, from) && n + Count(s, a, from) == Count(s, a, 0)
      decreases |s| - from
    {
      n := n + 1;
      from := pos + |a|;
      pos := Next(s, a, from);
    }
  }

  // Nil if the length of the result does not fit a size; but its terminator is not counted, so a result of
  // exactly the greatest size gets a buffer that is too small.
  method Replace(s: string, a: string, b: string) returns (r: Outcome)
    requires |s| < SIZE_MAX
    ensures a == "" ==> r == Text(s)
    ensures a != "" ==>
              var t := Replaced(s, a, b, 0);
              r == if |t| > SIZE_MAX then Nothing else if |t| == SIZE_MAX then Undersized else Text(t)
  {
    hide Next, Replaced, Count;
    if a == "" {
      return Text(s);
    }
    var count := CountAll(s, a);
    LengthCounted(s, a, b, 0);
    NoneReplaced(s, a, b);
    if count == 0 {
      return Text(s);
    }
    var length := ResultLength(|s|, count, |a|, |b|);
    if length > SIZE_MAX {
      return Nothing;
    }
    AskedIff(length);
    if Asked(length) < length + 1 {
      return Undersized;
    }
    var t := CopyReplacing(s, a, b, length);
    r := Text(t);
  }

  // The length of the result, or one more than the greatest size if it is greater than that; no test goes
  // wrong itself.
  method ResultLength(n: nat, count: nat, old_: nat, new_: nat) returns (length: nat)
    requires n < SIZE_MAX && count * old_ <= n
    ensures var exact := n + count * new_ - count * old_;
            length == if exact <= SIZE_MAX then exact else SIZES
  {
    if new_ >= old_ {
      var diff := new_ - old_;
      Spread(count, old_, new_);
      if diff > 0 && count > SIZE_MAX / diff {
        TooMany(count, diff);
        return SIZES;
      }
      var growth := count * diff;
      if growth > SIZE_MAX - n {
        return SIZES;
      }
      length := n + growth;
    } else {
      Spread(count, new_, old_);
      length := n - count * (old_ - new_);
    }
  }

  // There are such strings: a character n times, each replaced by m, gives n * m; and 2^64 - 1 is the product
  // of 2^32 + 1 and 2^32 - 1.
  lemma {:induction false} AllReplaced(s: string, b: string, from: nat)
    requires from <= |s| && forall i :: 0 <= i < |s| ==> s[i] == 'a'
    ensures Count(s, "a", from) == |s| - from
    decreases |s| - from
  {
    if from < |s| {
      assert Occurs(s, "a", from);
      AllReplaced(s, b, from + 1);
    } else {
      assert !Occurs(s, "a", from);
    }
  }

  lemma GreatestSize(s: string, b: string)
    requires |s| == 0x1_0000_0001 && |b| == 0xFFFF_FFFF && forall i :: 0 <= i < |s| ==> s[i] == 'a'
    ensures |Replaced(s, "a", b, 0)| == SIZE_MAX
  {
    hide Next, Replaced, Count;
    AllReplaced(s, b, 0);
    LengthCounted(s, "a", b, 0);
  }

  lemma NoneReplaced(s: string, a: string, b: string)
    requires a != ""
    ensures Count(s, a, 0) == 0 ==> Replaced(s, a, b, 0) == s
  {
    hide Next;
  }

  lemma Spread(n: nat, x: nat, y: nat)
    requires x <= y
    ensures n * y - n * x == n * (y - x)
  {
  }

  lemma TooMany(n: nat, k: nat)
    requires k > 0 && n > SIZE_MAX / k
    ensures n * k > SIZE_MAX
  {
    var q := SIZE_MAX / k;
    assert SIZE_MAX < (q + 1) * k;
    More(n, q + 1, k);
  }

  lemma More(n: nat, m: nat, k: nat)
    requires n >= m
    ensures n * k >= m * k
  {
    assert n * k == m * k + (n - m) * k;
  }

  // The copying pass fills a buffer of the counted length exactly, and the terminator goes behind it.
  method CopyReplacing(s: string, a: string, b: string, length: nat) returns (r: string)
    requires a != "" && length == |Replaced(s, a, b, 0)|
    ensures r == Replaced(s, a, b, 0)
  {
    hide Next, Replaced;
    var buf := new char[length + 1];
    var dest, src := 0, 0;
    var pos := Next(s, a, src);
    ghost var done := "";
    assert buf[..0] == "" && done + Replaced(s, a, b, 0) == Replaced(s, a, b, 0);
    while pos >= 0
      invariant src <= |s| && pos == Next(s, a, src) && buf.Length == length + 1 && dest == |done| <= length
      invariant buf[..dest] == done && done + Replaced(s, a, b, src) == Replaced(s, a, b, 0)
      decreases |s| - src
    {
      ReplacedStep(s, a, b, src, done);
      CopyTwo(buf, dest, s[src..pos], b);
      done := done + s[src..pos] + b;
      dest := dest + (pos - src) + |b|;
      src := pos + |a|;
      pos := Next(s, a, src);
    }
    ReplacedFrom(s, a, b, src);
    Copy(buf, dest, s[src..]);
    buf[length] := '\0';
    assert dest + |s[src..]| == length;
    r := buf[..length];
  }

  // One round of the copying pass: the text up to the occurrence, then the replacement.
  lemma ReplacedStep(s: string, a: string, b: string, src: nat, done: string)
    requires src <= |s| && a != "" && Next(s, a, src) >= 0
    ensures var pos := Next(s, a, src);
            && src <= pos && pos + |a| <= |s|
            && (done + s[src..pos] + b) + Replaced(s, a, b, pos + |a|) == done + Replaced(s, a, b, src)
            && |done| + (pos - src) + |b| <= |done + Replaced(s, a, b, src)|
  {
    hide Next, Replaced;
    ReplacedFrom(s, a, b, src);
    var pos := Next(s, a, src);
    Regroup(done, s[src..pos], b, Replaced(s, a, b, pos + |a|));
  }

  lemma ReplacedFrom(s: string, a: string, b: string, from: nat)
    requires from <= |s| && a != ""
    ensures var i := Next(s, a, from);
            Replaced(s, a, b, from) == if i < 0 then s[from..] else s[from..i] + b + Replaced(s, a, b, i + |a|)
  {
    hide Next;
  }
}
