/**
  The daily snapshot log (logging_utils.py): one gzip member per line appended, and a healer that
  rewrites a damaged file from what still decodes. Section 2.2 of RFC 1952: a gzip file is a series
  of members. Compression itself is abstract: any self-delimiting codec will do.
 */
module SnapshotLog {
  import opened Options

  newtype byte = x: int | 0 <= x < 256

  type Line = seq<byte>

  const ID1: byte := 0x1f
  const ID2: byte := 0x8b

  predicate Blank(b: byte) { b == 32 || 9 <= b <= 13 }

  /** What `splitlines` and the blank-line filter can yield: no line break, and something to see. */
  predicate IsLine(l: Line) {
    && (exists k :: 0 <= k < |l| && !Blank(l[k]))
    && (forall k :: 0 <= k < |l| ==> l[k] != 10 && l[k] != 13)
  }

  predicate AllLines(ls: seq<Line>) {
    forall k :: 0 <= k < |ls| ==> IsLine(ls[k])
  }

  /** `encode` writes one member; `decode` reads the member at an offset and says where it ends. */
  datatype Codec = Codec(
    encode: seq<Line> -> seq<byte>,
    decode: (seq<byte>, nat) -> Option<(seq<Line>, nat)>)

  predicate MagicAt(b: seq<byte>, i: nat) {
    i + 1 < |b| && b[i] == ID1 && b[i + 1] == ID2
  }

  /** The same `n` bytes at two places. */
  predicate SameBytes(b: seq<byte>, i: nat, c: seq<byte>, j: nat, n: nat) {
    i + n <= |b| && j + n <= |c| && b[i..i + n] == c[j..j + n]
  }

  /** A member starts with the magic bytes and ends inside the file. */
  ghost predicate Delimits(c: Codec) {
    forall b: seq<byte>, i: nat :: c.decode(b, i).Some? ==>
      MagicAt(b, i) && i + 2 <= c.decode(b, i).value.1 <= |b|
  }

  /** Decoding looks at nothing but the member's own bytes. */
  ghost predicate Local(c: Codec) {
    forall b: seq<byte>, i: nat, d: seq<byte>, j: nat, n: nat ::
      SameBytes(b, i, d, j, n) && c.decode(b, i).Some? && c.decode(b, i).value.1 == i + n ==>
        c.decode(d, j) == Some((c.decode(b, i).value.0, j + n))
  }

  /** A member holds lines. */
  ghost predicate Yields(c: Codec) {
    forall b: seq<byte>, i: nat :: c.decode(b, i).Some? ==> AllLines(c.decode(b, i).value.0)
  }

  /** Lines come back as they were; nothing is asked of other payloads. */
  ghost predicate RoundTrips(c: Codec) {
    forall lines :: AllLines(lines) ==> c.decode(c.encode(lines), 0) == Some((lines, |c.encode(lines)|))
  }

  ghost predicate Lawful(c: Codec) { Delimits(c) && Local(c) && Yields(c) && RoundTrips(c) }

  // ---------------------------------------------------------------- reading

  /** The next magic at or after `i`. */
  function FindMagic(b: seq<byte>, i: nat): (m: Option<nat>)
    ensures m.Some? ==> i <= m.value && MagicAt(b, m.value)
    ensures m.Some? ==> forall k :: i <= k < m.value ==> !MagicAt(b, k)
    ensures m.None? ==> forall k :: i <= k ==> !MagicAt(b, k)
    decreases |b| - i
  {
    if i + 1 >= |b| then None
    else if MagicAt(b, i) then Some(i)
    else FindMagic(b, i + 1)
  }

  /** Past any zero padding. */
  function SkipZeros(b: seq<byte>, i: nat): (j: nat)
    requires i <= |b|
    ensures i <= j <= |b|
    decreases |b| - i
  {
    if i < |b| && b[i] == 0 then SkipZeros(b, i + 1) else i
  }

  /** `gzip.decompress` accepts the rest of the file: members, each possibly followed by zero padding. */
  ghost predicate Healthy(c: Codec, b: seq<byte>, i: nat)
    requires Delimits(c) && i <= |b|
    decreases |b| - i
  {
    i == |b| ||
    (c.decode(b, i).Some? && Healthy(c, b, SkipZeros(b, c.decode(b, i).value.1)))
  }

  /** What a reader gets: the lines of the intact members before the first damage. */
  ghost function Readable(c: Codec, b: seq<byte>, i: nat): seq<Line>
    requires Delimits(c) && i <= |b|
    decreases |b| - i
  {
    if c.decode(b, i).None? then []
    else c.decode(b, i).value.0 + Readable(c, b, c.decode(b, i).value.1)
  }

  /** Members back to back from `i` to `end`. */
  ghost predicate SeriesTo(c: Codec, b: seq<byte>, i: nat, end: nat)
    requires Delimits(c)
    decreases |b| - i
  {
    i == end || (c.decode(b, i).Some? && SeriesTo(c, b, c.decode(b, i).value.1, end))
  }

  /** The lines the healer finds from `i` on, and how many damaged spans it counts. */
  ghost function Walk(c: Codec, b: seq<byte>, i: nat): (seq<Line>, nat)
    requires Delimits(c)
    decreases |b| - i
  {
    if i + 1 >= |b| then ([], 0)
    else
      var magic := FindMagic(b, i);
      if magic.None? then ([], 1)
      else
        var m := magic.value;
        var skipped := if m > i then 1 else 0;
        if c.decode(b, m).None? then
          var (lines, corrupt) := Walk(c, b, m + 2);
          (lines, skipped + 1 + corrupt)
        else
          var (lines, corrupt) := Walk(c, b, c.decode(b, m).value.1);
          (c.decode(b, m).value.0 + lines, skipped + corrupt)
  }

  ghost function Salvaged(c: Codec, b: seq<byte>, i: nat): seq<Line>
    requires Delimits(c)
  {
    Walk(c, b, i).0
  }

  ghost function Damage(c: Codec, b: seq<byte>, i: nat): nat
    requires Delimits(c)
  {
    Walk(c, b, i).1
  }

  /** What healing makes of a file: nothing to do, or a fresh single member. */
  ghost function Healed(c: Codec, b: seq<byte>): Option<seq<Line>>
    requires Delimits(c)
  {
    if b == [] || Healthy(c, b, 0) || Damage(c, b, 0) == 0 then None else Some(Salvaged(c, b, 0))
  }

  // ---------------------------------------------------------------- the file

  /** How a write ends: `written` bytes had reached the file when it failed. */
  datatype Outcome = Written | RolledBack(written: nat) | Stranded(written: nat)

  /** What a write leaves behind. */
  function Appended(c: Codec, line: Line, outcome: Outcome): seq<byte> {
    var member := c.encode([line]);
    match outcome
    case Written => member
    case RolledBack(_) => []
    case Stranded(written) => member[..if written <= |member| then written else |member|]
  }

  class SnapshotFile {
    const codec: Codec
    var bytes: seq<byte>

    constructor (codec: Codec)
      ensures this.codec == codec && bytes == []
    {
      this.codec := codec;
      bytes := [];
    }

    /**
      `SnapshotWriter.write`: one member appended; or nothing when the write fails after some bytes
      and is rolled back; or those bytes when the truncation fails too.
     */
    method Write(line: Line, outcome: Outcome)
      modifies this
      ensures bytes == old(bytes) + Appended(codec, line, outcome)
    {
      var member := codec.encode([line]);
      var start := |bytes|;
      match outcome
      case Written =>
        bytes := bytes + member;
      case RolledBack(written) =>
        bytes := bytes + member[..if written <= |member| then written else |member|];
        bytes := bytes[..start];
      case Stranded(written) =>
        bytes := bytes + member[..if written <= |member| then written else |member|];
    }

    /** The structural walk of `recover_torn_gzip`. */
    method Salvage() returns (recovered: seq<Line>, corrupt: nat)
      requires Delimits(codec)
      ensures recovered == Salvaged(codec, bytes, 0) && corrupt == Damage(codec, bytes, 0)
    {
      recovered, corrupt := [], 0;
      var pos := 0;
      while pos + 1 < |bytes|
        invariant Walk(codec, bytes, 0).0 == recovered + Walk(codec, bytes, pos).0
        invariant Walk(codec, bytes, 0).1 == corrupt + Walk(codec, bytes, pos).1
        decreases |bytes| - pos
      {
        ghost var here := Walk(codec, bytes, pos);
        var magic := FindMagic(bytes, pos);
        if magic.None? {
          corrupt := corrupt + 1;
          return;
        }
        if magic.value > pos {
          corrupt := corrupt + 1;
        }
        var member := codec.decode(bytes, magic.value);
        if member.None? {
          corrupt := corrupt + 1;
          pos := magic.value + 2;
          continue;
        }
        recovered := recovered + member.value.0;
        pos := member.value.1;
      }
    }

    /** `gzip.decompress` as a probe. */
    method Probe() returns (ok: bool)
      requires Delimits(codec)
      ensures ok <==> Healthy(codec, bytes, 0)
    {
      var pos := 0;
      while pos < |bytes|
        invariant pos <= |bytes|
        invariant Healthy(codec, bytes, 0) <==> Healthy(codec, bytes, pos)
        decreases |bytes| - pos
      {
        var member := codec.decode(bytes, pos);
        if member.None? {
          return false;
        }
        pos := SkipZeros(bytes, member.value.1);
      }
      ok := true;
    }

    /** `recover_torn_gzip`: the number of lines recovered, or nothing when the file was left alone. */
    method Recover() returns (count: Option<nat>)
      requires Delimits(codec)
      modifies this
      ensures count.None? <==> Healed(codec, old(bytes)).None?
      ensures count.None? ==> bytes == old(bytes)
      ensures count.Some? ==>
        var lines := Healed(codec, old(bytes)).value;
        count.value == |lines| && bytes == codec.encode(lines)
    {
      if bytes == [] {
        return None;
      }
      var ok := Probe();
      if ok {
        return None;
      }
      var recovered, corrupt := Salvage();
      if corrupt == 0 {
        return None;
      }
      bytes := codec.encode(recovered);
      count := Some(|recovered|);
    }
  }

  // ---------------------------------------------------------------- what healing achieves

  lemma WalkEnd(c: Codec, b: seq<byte>)
    requires Delimits(c)
    ensures Salvaged(c, b, |b|) == [] && Damage(c, b, |b|) == 0
  {
  }

  lemma WalkMember(c: Codec, b: seq<byte>, i: nat)
    requires Delimits(c) && c.decode(b, i).Some?
    ensures Salvaged(c, b, i) == c.decode(b, i).value.0 + Salvaged(c, b, c.decode(b, i).value.1)
    ensures Damage(c, b, i) == Damage(c, b, c.decode(b, i).value.1)
  {
    assert MagicAt(b, i) && FindMagic(b, i) == Some(i);
  }

  /** Where nothing decodes and more than a byte is left, the healer counts damage. */
  lemma WalkDamage(c: Codec, b: seq<byte>, i: nat)
    requires Delimits(c) && i + 1 < |b| && c.decode(b, i).None?
    ensures Damage(c, b, i) > 0
  {
    var magic := FindMagic(b, i);
    if magic.Some? && c.decode(b, magic.value).Some? {
      assert magic.value > i;
      assert Walk(c, b, i).1 == 1 + Walk(c, b, c.decode(b, magic.value).value.1).1;
    } else if magic.Some? {
      assert Walk(c, b, i).1 == (if magic.value > i then 1 else 0) + 1 + Walk(c, b, magic.value + 2).1;
    }
  }

  /** A byte before a member costs the healer one damaged span. */
  lemma WalkStray(c: Codec, b: seq<byte>, i: nat)
    requires Delimits(c) && !MagicAt(b, i) && MagicAt(b, i + 1)
    ensures Salvaged(c, b, i) == Salvaged(c, b, i + 1)
    ensures Damage(c, b, i) == Damage(c, b, i + 1) + 1
  {
    assert FindMagic(b, i + 1) == Some(i + 1);
    assert FindMagic(b, i) == Some(i + 1);
  }

  /** The lines of the intact members before the first damage come first, in order. */
  lemma {:induction false} WalkKeepsReadable(c: Codec, b: seq<byte>, i: nat)
    requires Delimits(c) && i <= |b|
    ensures Readable(c, b, i) <= Salvaged(c, b, i)
    decreases |b| - i
  {
    if c.decode(b, i).Some? {
      assert MagicAt(b, i) && FindMagic(b, i) == Some(i);
      WalkKeepsReadable(c, b, c.decode(b, i).value.1);
    }
  }

  /** Whatever the healer salvages are lines. */
  lemma {:induction false} SalvagedAreLines(c: Codec, b: seq<byte>, i: nat)
    requires Delimits(c) && Yields(c)
    ensures AllLines(Salvaged(c, b, i))
    decreases |b| - i
  {
    if i + 1 < |b| {
      var magic := FindMagic(b, i);
      if magic.Some? {
        if c.decode(b, magic.value).None? {
          SalvagedAreLines(c, b, magic.value + 2);
        } else {
          SalvagedAreLines(c, b, c.decode(b, magic.value).value.1);
        }
      }
    }
  }

  lemma WholeMember(c: Codec, lines: seq<Line>)
    requires Lawful(c) && AllLines(lines)
    ensures var b := c.encode(lines);
      && c.decode(b, 0) == Some((lines, |b|))
      && SeriesTo(c, b, 0, |b|) && Healthy(c, b, 0) && Readable(c, b, 0) == lines
  {
    var b := c.encode(lines);
    assert c.decode(b, 0) == Some((lines, |b|));
    assert SkipZeros(b, |b|) == |b|;
    assert c.decode(b, |b|).None?;
  }

  /** A healed file is healthy, holds exactly the recovered lines, and is left alone from then on. */
  lemma HealedIsHealthy(c: Codec, b: seq<byte>)
    requires Lawful(c) && Healed(c, b).Some?
    ensures var healed := c.encode(Healed(c, b).value);
      && Healthy(c, healed, 0)
      && Readable(c, healed, 0) == Healed(c, b).value
      && Healed(c, healed).None?
    ensures Readable(c, b, 0) <= Healed(c, b).value
  {
    SalvagedAreLines(c, b, 0);
    WholeMember(c, Healed(c, b).value);
    WalkKeepsReadable(c, b, 0);
  }

  /** Members back to back, then one stray byte. */
  ghost predicate StrayByte(c: Codec, b: seq<byte>)
    requires Delimits(c)
  {
    |b| > 0 && SeriesTo(c, b, 0, |b| - 1)
  }

  lemma {:induction false} NoDamageMeans(c: Codec, b: seq<byte>, i: nat)
    requires Delimits(c) && i <= |b|
    ensures Damage(c, b, i) == 0 <==>
      SeriesTo(c, b, i, |b|) || (|b| > 0 && SeriesTo(c, b, i, |b| - 1))
    decreases |b| - i
  {
    if i + 1 < |b| {
      if c.decode(b, i).Some? {
        WalkMember(c, b, i);
        NoDamageMeans(c, b, c.decode(b, i).value.1);
      } else {
        WalkDamage(c, b, i);
      }
    } else {
      assert !MagicAt(b, i);
      assert c.decode(b, i).None?;
    }
  }

  lemma {:induction false} SeriesIsHealthy(c: Codec, b: seq<byte>, i: nat)
    requires Delimits(c) && i <= |b| && SeriesTo(c, b, i, |b|)
    ensures Healthy(c, b, i)
    decreases |b| - i
  {
    if i < |b| {
      var end := c.decode(b, i).value.1;
      SeriesIsHealthy(c, b, end);
      if end < |b| {
        assert c.decode(b, end).Some?;
        assert b[end] == ID1;
      }
      assert SkipZeros(b, end) == end;
    }
  }

  /** Padding of one zero is fine after a member; any other last byte is not. */
  lemma {:induction false} StrayByteHealthy(c: Codec, b: seq<byte>, i: nat)
    requires Delimits(c) && i < |b| && SeriesTo(c, b, i, |b| - 1)
    ensures Healthy(c, b, i) <==> i < |b| - 1 && b[|b| - 1] == 0
    decreases |b| - i
  {
    if i < |b| - 1 {
      var end := c.decode(b, i).value.1;
      if end < |b| - 1 {
        assert b[end] == ID1 by { assert c.decode(b, end).Some?; }
        assert SkipZeros(b, end) == end;
        StrayByteHealthy(c, b, end);
      } else {
        assert !MagicAt(b, end);
        assert end == |b| - 1;
        assert SkipZeros(b, end) == if b[end] == 0 then |b| else end;
      }
    } else {
      assert c.decode(b, i).Some? ==> MagicAt(b, i);
    }
  }

  /**
    The healer's one blind spot: it leaves a damaged file as it is exactly when the damage is a
    single byte after intact members, nonzero or the only one in the file.
   */
  lemma LeftDamagedExactly(c: Codec, b: seq<byte>)
    requires Delimits(c)
    ensures b != [] && !Healthy(c, b, 0) && Healed(c, b).None? <==>
      StrayByte(c, b) && (b[|b| - 1] != 0 || |b| == 1)
  {
    NoDamageMeans(c, b, 0);
    if b != [] && SeriesTo(c, b, 0, |b|) {
      SeriesIsHealthy(c, b, 0);
      EndsOnce(c, b, 0);
    }
    if StrayByte(c, b) {
      StrayByteHealthy(c, b, 0);
    }
  }

  lemma {:induction false} EndsOnce(c: Codec, b: seq<byte>, i: nat)
    requires Delimits(c) && i <= |b| && SeriesTo(c, b, i, |b|)
    ensures |b| > 0 ==> !SeriesTo(c, b, i, |b| - 1)
    decreases |b| - i
  {
    if i < |b| {
      EndsOnce(c, b, c.decode(b, i).value.1);
    }
    assert c.decode(b, i).Some? ==> MagicAt(b, i);
  }
}
