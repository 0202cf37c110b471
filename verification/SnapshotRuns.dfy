/** Whole runs of the snapshot log (logging_utils.py): appends, failed appends, crashes and heals. */
module SnapshotRuns {
  import opened Options
  import opened SnapshotLog

  /**
    What can happen to a day's file under the write lock. `Tear` is a crash after the first `kept`
    bytes of a member, possibly all of it; the next writer heals before it appends.
   */
  datatype Op = Append(line: Line) | Fail(line: Line) | Tear(line: Line, kept: nat) | Heal

  function Torn(c: Codec, op: Op): seq<byte>
    requires op.Tear?
  {
    Appended(c, op.line, Stranded(op.kept))
  }

  /** The crash came after the whole member was written. */
  predicate Whole(c: Codec, op: Op)
    requires op.Tear?
  {
    op.kept >= |c.encode([op.line])|
  }

  /** What is written is a line. */
  predicate WritesLines(ops: seq<Op>) {
    forall i :: 0 <= i < |ops| && !ops[i].Heal? ==> IsLine(ops[i].line)
  }

  ghost function Apply(c: Codec, b: seq<byte>, op: Op): seq<byte>
    requires Delimits(c)
  {
    match op
    case Append(line) => b + Appended(c, line, Written)
    case Fail(line) => b + Appended(c, line, RolledBack(0))
    case Tear(_, _) => b + Torn(c, op)
    case Heal => if Healed(c, b).None? then b else c.encode(Healed(c, b).value)
  }

  ghost function FileAfter(c: Codec, ops: seq<Op>): seq<byte>
    requires Delimits(c)
  {
    if ops == [] then [] else Apply(c, FileAfter(c, ops[..|ops| - 1]), ops[|ops| - 1])
  }

  /** The lines whose append was acknowledged, in order. */
  function Acknowledged(ops: seq<Op>): seq<Line> {
    if ops == [] then []
    else
      Acknowledged(ops[..|ops| - 1])
        + (if ops[|ops| - 1].Append? then [ops[|ops| - 1].line] else [])
  }

  /** After a crash comes a restart, which heals. */
  predicate HealsAfterCrash(ops: seq<Op>) {
    forall i :: 0 < i < |ops| && ops[i - 1].Tear? ==> ops[i].Heal?
  }

  // ---------------------------------------------------------------- subsequences

  predicate Subsequence(xs: seq<Line>, ys: seq<Line>) {
    xs == [] ||
    (ys != [] &&
      (Subsequence(xs, ys[..|ys| - 1]) ||
       (xs[|xs| - 1] == ys[|ys| - 1] && Subsequence(xs[..|xs| - 1], ys[..|ys| - 1]))))
  }

  lemma {:induction false} SubsequenceExtend(xs: seq<Line>, ys: seq<Line>, zs: seq<Line>)
    requires Subsequence(xs, ys)
    ensures Subsequence(xs, ys + zs)
  {
    if zs == [] {
      assert ys + zs == ys;
    } else {
      SubsequenceExtend(xs, ys, zs[..|zs| - 1]);
      assert (ys + zs)[..|ys + zs| - 1] == ys + zs[..|zs| - 1];
    }
  }

  lemma SubsequenceAppend(xs: seq<Line>, ys: seq<Line>, l: Line)
    requires Subsequence(xs, ys)
    ensures Subsequence(xs + [l], ys + [l])
  {
    assert (xs + [l])[..|xs|] == xs && (ys + [l])[..|ys|] == ys;
  }

  // ---------------------------------------------------------------- a stretch of members inside a file

  /** The members of `part` sit in `b` at offset `i`. */
  predicate Contains(b: seq<byte>, i: nat, part: seq<byte>) {
    i + |part| <= |b| && b[i..i + |part|] == part
  }

  lemma SliceOfSlice(b: seq<byte>, i: nat, n: nat, j: nat, end: nat)
    requires j <= end <= n && i + n <= |b|
    ensures b[i..i + n][j..end] == b[i + j..i + end]
  {
    var x, y := b[i..i + n][j..end], b[i + j..i + end];
    assert forall k :: 0 <= k < |x| ==> x[k] == y[k];
  }

  lemma DecodeInside(c: Codec, part: seq<byte>, j: nat, b: seq<byte>, i: nat)
    requires Lawful(c) && Contains(b, i, part) && c.decode(part, j).Some?
    ensures c.decode(b, i + j) == Some((c.decode(part, j).value.0, i + c.decode(part, j).value.1))
  {
    var end := c.decode(part, j).value.1;
    SliceOfSlice(b, i, |part|, j, end);
    assert SameBytes(part, j, b, i + j, end - j);
  }

  /** Reading goes through intact members the same way wherever they sit. */
  lemma {:induction false} ThroughReads(c: Codec, part: seq<byte>, j: nat, b: seq<byte>, i: nat)
    requires Lawful(c) && Contains(b, i, part) && j <= |part| && SeriesTo(c, part, j, |part|)
    ensures Readable(c, b, i + j) == Readable(c, part, j) + Readable(c, b, i + |part|)
    decreases |part| - j
  {
    hide Local, RoundTrips, Yields;
    if j == |part| {
      assert c.decode(part, j).None?;
    } else {
      var (lines, end) := c.decode(part, j).value;
      DecodeInside(c, part, j, b, i);
      ThroughReads(c, part, end, b, i);
      assert lines + (Readable(c, part, end) + Readable(c, b, i + |part|))
        == (lines + Readable(c, part, end)) + Readable(c, b, i + |part|);
    }
  }

  /** So does healing. */
  lemma {:induction false} ThroughWalks(c: Codec, part: seq<byte>, j: nat, b: seq<byte>, i: nat)
    requires Lawful(c) && Contains(b, i, part) && j <= |part| && SeriesTo(c, part, j, |part|)
    ensures Salvaged(c, b, i + j) == Readable(c, part, j) + Salvaged(c, b, i + |part|)
    ensures Damage(c, b, i + j) == Damage(c, b, i + |part|)
    decreases |part| - j
  {
    hide Local, RoundTrips, Yields, Salvaged, Damage;
    if j == |part| {
      assert c.decode(part, j).None?;
    } else {
      var (lines, end) := c.decode(part, j).value;
      DecodeInside(c, part, j, b, i);
      WalkMember(c, b, i + j);
      ThroughWalks(c, part, end, b, i);
      assert lines + (Readable(c, part, end) + Salvaged(c, b, i + |part|))
        == (lines + Readable(c, part, end)) + Salvaged(c, b, i + |part|);
    }
  }

  lemma {:induction false} SeriesThrough(c: Codec, part: seq<byte>, j: nat, b: seq<byte>, i: nat, end: nat)
    requires Lawful(c) && Contains(b, i, part) && j <= |part| && SeriesTo(c, part, j, |part|)
    requires i + |part| <= end
    ensures SeriesTo(c, b, i + j, end) <==> SeriesTo(c, b, i + |part|, end)
    decreases |part| - j
  {
    hide Local, RoundTrips, Yields;
    if j < |part| {
      DecodeInside(c, part, j, b, i);
      SeriesThrough(c, part, c.decode(part, j).value.1, b, i, end);
    }
  }

  lemma {:induction false} HealthyThrough(c: Codec, part: seq<byte>, j: nat, b: seq<byte>, i: nat)
    requires Lawful(c) && Contains(b, i, part) && j <= |part| && SeriesTo(c, part, j, |part|)
    requires i + |part| < |b| && b[i + |part|] != 0
    ensures Healthy(c, b, i + j) <==> Healthy(c, b, i + |part|)
    decreases |part| - j
  {
    hide Local, RoundTrips, Yields;
    if j < |part| {
      DecodeInside(c, part, j, b, i);
      var end := c.decode(part, j).value.1;
      if end < |part| {
        assert MagicAt(part, end) by { assert c.decode(part, end).Some?; }
        assert b[i + end] == b[i..i + |part|][end];
      }
      assert SkipZeros(b, i + end) == i + end;
      HealthyThrough(c, part, end, b, i);
    }
  }

  /** A member starts with the magic and is all there is to read in itself. */
  lemma Member(c: Codec, lines: seq<Line>)
    requires Lawful(c) && AllLines(lines)
    ensures var m := c.encode(lines);
      MagicAt(m, 0) && SeriesTo(c, m, 0, |m|) && Readable(c, m, 0) == lines
  {
    hide Local, RoundTrips, Yields;
    WholeMember(c, lines);
  }

  /** Appending a member extends a series by its line. */
  lemma SeriesAppend(c: Codec, part: seq<byte>, line: Line)
    requires Lawful(c) && IsLine(line) && SeriesTo(c, part, 0, |part|)
    ensures var b := part + c.encode([line]);
      SeriesTo(c, b, 0, |b|) && Readable(c, b, 0) == Readable(c, part, 0) + [line]
  {
    hide Local, RoundTrips, Yields;
    var m := c.encode([line]);
    var b := part + m;
    Member(c, [line]);
    assert Contains(b, 0, part) && Contains(b, |part|, m);
    ThroughReads(c, part, 0, b, 0);
    ThroughReads(c, m, 0, b, |part|);
    assert c.decode(b, |b|).None?;
    SeriesThrough(c, m, 0, b, |part|, |b|);
    SeriesThrough(c, part, 0, b, 0, |b|);
  }

  /** Bytes that agree with a member as far as they go decode only if all of it is there. */
  lemma DecodesWhole(c: Codec, b: seq<byte>, i: nat, lines: seq<Line>)
    requires Lawful(c) && AllLines(lines) && i <= |b| && c.decode(b, i).Some?
    requires |b| - i <= |c.encode(lines)| && b[i..] == c.encode(lines)[..|b| - i]
    ensures |b| - i == |c.encode(lines)|
  {
    var m := c.encode(lines);
    var n := c.decode(b, i).value.1 - i;
    assert b[i..i + n] == b[i..][..n] == m[..n] == m[0..0 + n];
    assert SameBytes(b, i, m, 0, n);
  }

  /** Part of a member does not decode. */
  lemma TornDoesNotDecode(c: Codec, b: seq<byte>, i: nat, lines: seq<Line>)
    requires Lawful(c) && AllLines(lines) && i <= |b|
    requires |b| - i < |c.encode(lines)| && b[i..] == c.encode(lines)[..|b| - i]
    ensures c.decode(b, i).None?
  {
    hide Local, RoundTrips, Yields;
    if c.decode(b, i).Some? {
      DecodesWhole(c, b, i, lines);
    }
  }

  // ---------------------------------------------------------------- the shape a file always has

  /** A stray byte is the first byte of a torn member. */
  predicate Stray(gap: seq<byte>) { gap == [] || gap == [ID1] }

  /** The tail is empty or the beginning of a member. */
  ghost predicate TornTail(c: Codec, t: seq<byte>, line: Line) {
    t == [] || (IsLine(line) && |t| < |c.encode([line])| && t == c.encode([line])[..|t|])
  }

  /** Intact members, at most one stray byte followed by more intact members, and a torn tail. */
  datatype Parts = Parts(a: seq<byte>, gap: seq<byte>, s: seq<byte>, t: seq<byte>, torn: Line)

  ghost predicate Shape(c: Codec, b: seq<byte>, p: Parts)
    requires Delimits(c)
  {
    && b == p.a + p.gap + p.s + p.t
    && SeriesTo(c, p.a, 0, |p.a|) && SeriesTo(c, p.s, 0, |p.s|)
    && Stray(p.gap) && (p.gap == [] ==> p.s == [])
    && TornTail(c, p.t, p.torn)
  }

  ghost function Kept(c: Codec, p: Parts): seq<Line>
    requires Delimits(c)
  {
    Readable(c, p.a, 0) + Readable(c, p.s, 0)
  }

  lemma SeriesStart(c: Codec, s: seq<byte>)
    requires Delimits(c) && SeriesTo(c, s, 0, |s|) && s != []
    ensures MagicAt(s, 0)
  {
    hide Local, RoundTrips, Yields;
    assert c.decode(s, 0).Some?;
  }

  /** What follows the stray byte, if anything, starts like a member. */
  lemma AfterGap(c: Codec, b: seq<byte>, p: Parts)
    requires Lawful(c) && Shape(c, b, p) && p.gap != []
    ensures |p.s + p.t| > 0 ==> b[|p.a| + 1] == ID1
    ensures !MagicAt(b, |p.a|)
    ensures c.decode(b, |p.a|).None?
  {
    hide Local, RoundTrips, Yields;
    if p.t != [] {
      Member(c, [p.torn]);
    }
    if p.s != [] {
      SeriesStart(c, p.s);
    }
    assert b[|p.a|] == ID1;
    assert |p.s + p.t| > 0 ==> b[|p.a| + 1] == (p.s + p.t)[0];
  }

  /** The healer gets past the stray byte. */
  lemma GapWalks(c: Codec, b: seq<byte>, p: Parts)
    requires Lawful(c) && Shape(c, b, p)
    ensures var r := |p.a| + |p.gap|;
      p.gap == [] || p.s != [] ==> Salvaged(c, b, |p.a|) == Salvaged(c, b, r)
    ensures p.s != [] ==> Damage(c, b, |p.a|) == Damage(c, b, |p.a| + 1) + 1
  {
    hide Local, RoundTrips, Yields, Salvaged, Damage;
    if p.gap != [] && p.s != [] {
      AfterGap(c, b, p);
      SeriesStart(c, p.s);
      var r := |p.a| + 1;
      assert b[r..r + |p.s|] == p.s;
      assert b[r] == p.s[0] && b[r + 1] == p.s[1];
      WalkStray(c, b, |p.a|);
    }
  }

  lemma Layout(c: Codec, b: seq<byte>, p: Parts)
    requires Delimits(c) && Shape(c, b, p)
    ensures Contains(b, 0, p.a) && Contains(b, |p.a| + |p.gap|, p.s)
    ensures SeriesTo(c, p.a, 0, |p.a|) && SeriesTo(c, p.s, 0, |p.s|)
    ensures |b| == |p.a| + |p.gap| + |p.s| + |p.t|
    ensures p.s == [] ==> Readable(c, p.s, 0) == []
  {
    if p.s == [] {
      assert c.decode(p.s, 0).None?;
    }
  }

  lemma FrontOfThree(xs: seq<Line>, ys: seq<Line>, zs: seq<Line>)
    ensures xs + ys <= xs + (ys + zs)
  {
  }

  /** The healer finds every line of the intact members, on either side of the stray byte. */
  lemma WalkKeeps(c: Codec, b: seq<byte>, p: Parts)
    requires Lawful(c) && Shape(c, b, p)
    ensures Kept(c, p) <= Salvaged(c, b, 0)
  {
    hide Local, RoundTrips, Yields, Salvaged, Damage, Shape, Contains;
    var r := |p.a| + |p.gap|;
    Layout(c, b, p);
    ThroughWalks(c, p.a, 0, b, 0);
    GapWalks(c, b, p);
    if p.gap == [] || p.s != [] {
      ThroughWalks(c, p.s, 0, b, r);
      FrontOfThree(Readable(c, p.a, 0), Readable(c, p.s, 0), Salvaged(c, b, r + |p.s|));
    } else {
      assert Kept(c, p) == Readable(c, p.a, 0);
    }
  }

  /** Without a stray byte a reader sees every intact member already. */
  lemma ReadsKept(c: Codec, b: seq<byte>, p: Parts)
    requires Lawful(c) && Shape(c, b, p) && p.gap == []
    ensures Readable(c, b, 0) == Kept(c, p)
  {
    hide Local, RoundTrips, Yields;
    assert Contains(b, 0, p.a);
    ThroughReads(c, p.a, 0, b, 0);
    assert Readable(c, p.s, 0) == [] by { assert c.decode(p.s, 0).None?; }
    TailDoesNotDecode(c, b, p);
  }

  lemma TailDoesNotDecode(c: Codec, b: seq<byte>, p: Parts)
    requires Lawful(c) && Shape(c, b, p) && p.gap == []
    ensures c.decode(b, |p.a|).None?
  {
    hide Local, RoundTrips, Yields;
    assert b[|p.a|..] == p.t;
    if p.t != [] {
      TornDoesNotDecode(c, b, |p.a|, [p.torn]);
    } else {
      assert |p.a| == |b|;
    }
  }

  /** Past its intact members a damaged file neither ends, nor decodes, nor shows padding. */
  lemma DamagedThere(c: Codec, b: seq<byte>, p: Parts)
    requires Lawful(c) && Shape(c, b, p) && p.t != []
    ensures c.decode(b, |p.a|).None? && |p.a| < |b| && b[|p.a|] == ID1 && p.t[0] == ID1
  {
    hide Local, RoundTrips, Yields;
    Member(c, [p.torn]);
    if p.gap == [] {
      TailDoesNotDecode(c, b, p);
      assert b[|p.a|] == p.t[0];
    } else {
      AfterGap(c, b, p);
      assert b[|p.a|] == p.gap[0];
    }
  }

  /** If the healer leaves a file alone, at most one byte of a torn tail is left in it. */
  lemma LeftAlone(c: Codec, b: seq<byte>, p: Parts)
    requires Lawful(c) && Shape(c, b, p) && Healed(c, b).None?
    ensures p.t == [] || (p.gap == [] && p.t == [ID1])
  {
    hide Local, RoundTrips, Yields, Salvaged, Damage, Contains, Shape;
    if p.t != [] {
      DamagedThere(c, b, p);
      Layout(c, b, p);
      HealthyThrough(c, p.a, 0, b, 0);
      NoDamageMeans(c, b, 0);
      SeriesThrough(c, p.a, 0, b, 0, |b|);
      SeriesThrough(c, p.a, 0, b, 0, |b| - 1);
      assert |p.a| == |b| - 1;
    }
  }

  // ---------------------------------------------------------------- how far the damage has got

  /**
    Whether a torn tail or a stray byte is in the file, told from the operations alone. A byte left
    by a crash stays behind the next heal; what is appended after it hides from readers.
   */
  datatype Mark = Intact | ByteTail | LongTail | StrayLeft | StrayTail | Hiding | HidingTail

  function NextMark(c: Codec, m: Mark, op: Op): Mark {
    match op
    case Append(_) => if m.StrayLeft? then Hiding else m
    case Fail(_) => m
    case Tear(_, kept) =>
      if Whole(c, op) then (if m.StrayLeft? then Hiding else m)
      else if kept == 0 then m
      else
        (match m
         case Intact => if kept == 1 then ByteTail else LongTail
         case StrayLeft => StrayTail
         case Hiding => HidingTail
         case _ => m)
    case Heal => if m.ByteTail? || m.StrayLeft? then StrayLeft else Intact
  }

  function MarkAfter(c: Codec, ops: seq<Op>): Mark {
    if ops == [] then Intact else NextMark(c, MarkAfter(c, ops[..|ops| - 1]), ops[|ops| - 1])
  }

  /** Some intact member lies behind a stray byte. */
  predicate Hides(m: Mark) { m.Hiding? || m.HidingTail? }

  predicate Tailed(m: Mark) { m.ByteTail? || m.LongTail? || m.StrayTail? || m.HidingTail? }

  /** The parts of a file are as its mark says. */
  ghost predicate Marked(c: Codec, b: seq<byte>, p: Parts, m: Mark)
    requires Delimits(c)
  {
    && Shape(c, b, p)
    && (p.t != [] <==> Tailed(m))
    && (p.gap == [] <==> m.Intact? || m.ByteTail? || m.LongTail?)
    && (Readable(c, p.s, 0) != [] <==> Hides(m))
    && (p.s != [] <==> Hides(m))
    && (m.ByteTail? ==> |p.t| == 1) && (m.LongTail? ==> |p.t| >= 2)
  }

  /** The lines of the members that are whole in the file. */
  ghost function KeptAfter(c: Codec, ops: seq<Op>): seq<Line>
    requires Delimits(c)
  {
    if ops == [] then []
    else
      var before, op := KeptAfter(c, ops[..|ops| - 1]), ops[|ops| - 1];
      match op
      case Append(line) => before + [line]
      case Fail(_) => before
      case Tear(line, _) => if Whole(c, op) then before + [line] else before
      case Heal =>
        var b := FileAfter(c, ops[..|ops| - 1]);
        if Healed(c, b).None? then before else Healed(c, b).value
  }

  // ---------------------------------------------------------------- one operation

  lemma AppendKeeps(c: Codec, b: seq<byte>, p: Parts, line: Line, m: Mark) returns (q: Parts)
    requires Lawful(c) && IsLine(line) && Marked(c, b, p, m) && !Tailed(m)
    ensures Marked(c, b + c.encode([line]), q, if m.StrayLeft? then Hiding else m)
    ensures Kept(c, q) == Kept(c, p) + [line]
  {
    hide Local, RoundTrips, Yields;
    var member := c.encode([line]);
    Member(c, [line]);
    if p.gap == [] {
      q := p.(a := p.a + member);
      SeriesAppend(c, p.a, line);
      assert b + member == q.a + q.gap + q.s + q.t;
      assert Readable(c, p.s, 0) == [];
    } else {
      q := p.(s := p.s + member);
      SeriesAppend(c, p.s, line);
      assert b + member == q.a + q.gap + q.s + q.t;
    }
  }

  lemma TearKeeps(c: Codec, b: seq<byte>, p: Parts, op: Op, m: Mark) returns (q: Parts)
    requires Lawful(c) && Marked(c, b, p, m) && !Tailed(m)
    requires op.Tear? && IsLine(op.line) && !Whole(c, op)
    ensures Marked(c, Apply(c, b, op), q, NextMark(c, m, op))
    ensures Kept(c, q) == Kept(c, p)
  {
    hide Local, RoundTrips, Yields, SeriesTo, Readable;
    q := p.(t := Torn(c, op), torn := op.line);
    assert b + q.t == q.a + q.gap + q.s + q.t;
  }

  /** A byte after intact members is left by the healer. */
  lemma ByteIsLeft(c: Codec, b: seq<byte>, a: seq<byte>)
    requires Lawful(c) && SeriesTo(c, a, 0, |a|) && |b| == |a| + 1 && b[..|a|] == a
    ensures Healed(c, b).None?
  {
    hide Local, RoundTrips, Yields;
    assert Contains(b, 0, a);
    SeriesThrough(c, a, 0, b, 0, |a|);
    NoDamageMeans(c, b, 0);
  }

  lemma HealKeeps(c: Codec, b: seq<byte>, p: Parts, m: Mark) returns (q: Parts)
    requires Lawful(c) && Marked(c, b, p, m)
    ensures Marked(c, Apply(c, b, Heal), q, NextMark(c, m, Heal))
    ensures Kept(c, q) == if Healed(c, b).None? then Kept(c, p) else Healed(c, b).value
    ensures Kept(c, p) <= Kept(c, q)
  {
    hide Local, RoundTrips, Yields;
    assert Readable(c, [], 0) == [] by { assert c.decode([], 0).None?; }
    HealsIff(c, b, p, m);
    if Healed(c, b).Some? {
      var lines := Healed(c, b).value;
      q := Parts(c.encode(lines), [], [], [], []);
      SalvagedLines(c, b);
      Member(c, lines);
      WalkKeeps(c, b, p);
    } else if m.ByteTail? {
      DamagedThere(c, b, p);
      q := Parts(p.a, p.t, [], [], []);
    } else {
      q := p;
    }
  }

  lemma SalvagedLines(c: Codec, b: seq<byte>)
    requires Delimits(c) && Yields(c) && Healed(c, b).Some?
    ensures AllLines(Healed(c, b).value)
  {
    SalvagedAreLines(c, b, 0);
  }

  /** The healer acts exactly on what is torn by more than a byte or hides something. */
  lemma HealsIff(c: Codec, b: seq<byte>, p: Parts, m: Mark)
    requires Lawful(c) && Marked(c, b, p, m)
    ensures Healed(c, b).None? <==> m.Intact? || m.ByteTail? || m.StrayLeft?
  {
    hide Local, RoundTrips, Yields, Healed, SeriesTo, Readable;
    match m
    case Intact =>
      assert b == p.a;
      IntactIsLeft(c, b);
    case ByteTail =>
      assert b[..|p.a|] == p.a && |b| == |p.a| + 1;
      ByteIsLeft(c, b, p.a);
    case StrayLeft =>
      assert b[..|p.a|] == p.a && |b| == |p.a| + 1;
      ByteIsLeft(c, b, p.a);
    case Hiding =>
      StrayHides(c, b, p);
    case _ =>
      if Healed(c, b).None? {
        LeftAlone(c, b, p);
      }
  }

  lemma IntactIsLeft(c: Codec, b: seq<byte>)
    requires Delimits(c) && SeriesTo(c, b, 0, |b|)
    ensures Healed(c, b).None?
  {
    SeriesIsHealthy(c, b, 0);
  }

  lemma PrefixSubsequence(xs: seq<Line>, ys: seq<Line>, zs: seq<Line>)
    requires Subsequence(xs, ys) && ys <= zs
    ensures Subsequence(xs, zs)
  {
    SubsequenceExtend(xs, ys, zs[|ys|..]);
    assert ys + zs[|ys|..] == zs;
  }

  // ---------------------------------------------------------------- whole runs

  lemma EmptyIntact(c: Codec)
    requires Delimits(c)
    ensures Marked(c, [], Parts([], [], [], [], []), Intact) && Kept(c, Parts([], [], [], [], [])) == []
  {
    assert c.decode([], 0).None?;
  }

  lemma {:induction false} RunShape(c: Codec, ops: seq<Op>) returns (p: Parts)
    requires Lawful(c) && HealsAfterCrash(ops) && WritesLines(ops)
    ensures Marked(c, FileAfter(c, ops), p, MarkAfter(c, ops))
    ensures ops == [] || !ops[|ops| - 1].Tear? ==> !Tailed(MarkAfter(c, ops))
    ensures Kept(c, p) == KeptAfter(c, ops)
    ensures Subsequence(Acknowledged(ops), Kept(c, p))
  {
    hide Local, RoundTrips, Yields, Marked, Kept, Healed, Torn, Whole;
    if ops == [] {
      EmptyIntact(c);
      p := Parts([], [], [], [], []);
    } else {
      var n := |ops| - 1;
      var before, op := ops[..n], ops[n];
      var b, m := FileAfter(c, before), MarkAfter(c, before);
      var o := RunShape(c, before);
      assert before != [] && before[n - 1].Tear? ==> op.Heal?;
      assert !op.Append? ==> Acknowledged(ops) == Acknowledged(before);
      match op
      case Append(line) =>
        p := AppendKeeps(c, b, o, line, m);
        SubsequenceAppend(Acknowledged(before), Kept(c, o), line);
      case Fail(_) =>
        p := o;
        assert b + [] == b;
      case Tear(line, kept) =>
        if Whole(c, op) {
          p := AppendKeeps(c, b, o, line, m);
          WholeTear(c, op);
          PrefixSubsequence(Acknowledged(before), Kept(c, o), Kept(c, p));
        } else {
          p := TearKeeps(c, b, o, op, m);
        }
      case Heal =>
        p := HealKeeps(c, b, o, m);
        PrefixSubsequence(Acknowledged(before), Kept(c, o), Kept(c, p));
    }
  }

  lemma WholeTear(c: Codec, op: Op)
    requires op.Tear? && Whole(c, op)
    ensures Torn(c, op) == c.encode([op.line])
  {
  }

  lemma FrontOfTwo(xs: seq<Line>, ys: seq<Line>)
    ensures xs + [] == xs <= xs + ys
    ensures xs == xs + ys <==> ys == []
  {
    assert |xs + ys| == |xs| + |ys|;
  }

  /** What a reader gets, given the mark: all of the whole members, or those before the stray byte. */
  lemma ReadsByMark(c: Codec, b: seq<byte>, p: Parts, m: Mark)
    requires Lawful(c) && Marked(c, b, p, m)
    ensures Readable(c, b, 0) <= Kept(c, p)
    ensures Readable(c, b, 0) == Kept(c, p) <==> !Hides(m)
  {
    hide Local, RoundTrips, Yields, Shape, Contains;
    if p.gap == [] {
      ReadsKept(c, b, p);
    } else {
      StrayShape(c, b, p);
      Layout(c, b, p);
      ThroughReads(c, p.a, 0, b, 0);
      FrontOfTwo(Readable(c, p.a, 0), Readable(c, p.s, 0));
    }
  }

  /**
    Through any run of appends, failures, crashes and heals every acknowledged line is, in order,
    among the lines of whole members, and those are all recoverable. A reader sees them all if and
    only if nothing was appended behind a byte that a crash left and a heal could not see.
   */
  lemma RunKeepsAcknowledged(c: Codec, ops: seq<Op>)
    requires Lawful(c) && HealsAfterCrash(ops) && WritesLines(ops)
    ensures Subsequence(Acknowledged(ops), KeptAfter(c, ops))
    ensures KeptAfter(c, ops) <= Salvaged(c, FileAfter(c, ops), 0)
    ensures Readable(c, FileAfter(c, ops), 0) <= KeptAfter(c, ops)
    ensures Readable(c, FileAfter(c, ops), 0) == KeptAfter(c, ops) <==> !Hides(MarkAfter(c, ops))
  {
    hide Local, RoundTrips, Yields, FileAfter, MarkAfter, KeptAfter, Acknowledged;
    var p := RunShape(c, ops);
    ReadsByMark(c, FileAfter(c, ops), p, MarkAfter(c, ops));
    WalkKeeps(c, FileAfter(c, ops), p);
  }

  /**
    What the blind spot costs: after a crash that leaves one byte, the heal does nothing and the
    next acknowledged line cannot be read, until a later heal brings it back.
   */
  lemma ByteTearHidesAppends(c: Codec, first: Line, torn: Line, second: Line)
    requires Lawful(c) && IsLine(first) && IsLine(torn) && IsLine(second)
    ensures var ops := [Append(first), Tear(torn, 1), Heal, Append(second)];
      && Hides(MarkAfter(c, ops)) && Readable(c, FileAfter(c, ops), 0) == [first]
      && Readable(c, FileAfter(c, ops + [Heal]), 0) == [first, second]
  {
    hide Local, RoundTrips, Yields;
    var m, n := c.encode([first]), c.encode([second]);
    var b := m + [ID1] + n;
    Member(c, [first]);
    Member(c, [torn]);
    Member(c, [second]);
    ByteIsLeft(c, m + [ID1], m);
    FirstOps(c, first, torn, second);
    var p := Parts(m, [ID1], n, [], []);
    assert b == p.a + p.gap + p.s + p.t;
    StrayHides(c, b, p);
    assert Kept(c, p) == [first, second];
    HealedIsHealthy(c, b);
  }

  lemma FirstOps(c: Codec, first: Line, torn: Line, second: Line)
    requires Lawful(c) && IsLine(torn)
    ensures var stray := c.encode([first]) + [ID1];
      var ops := [Append(first), Tear(torn, 1), Heal, Append(second)];
      && Hides(MarkAfter(c, ops))
      && (Healed(c, stray).None? ==>
        FileAfter(c, ops) == stray + c.encode([second])
        && FileAfter(c, ops + [Heal]) == Apply(c, stray + c.encode([second]), Heal))
  {
    hide Local, RoundTrips, Yields, Healed;
    Member(c, [torn]);
    var o1, o2, o3, o4 := Append(first), Tear(torn, 1), Heal, Append(second);
    OneMore(c, [], o1);
    OneMore(c, [o1], o2);
    OneMore(c, [o1, o2], o3);
    OneMore(c, [o1, o2, o3], o4);
    OneMore(c, [o1, o2, o3, o4], o3);
    assert Torn(c, o2) == [ID1];
    assert [] + c.encode([first]) == c.encode([first]);
    assert [] + [o1] == [o1] && [o1] + [o2] == [o1, o2] && [o1, o2] + [o3] == [o1, o2, o3];
    assert [o1, o2, o3] + [o4] == [o1, o2, o3, o4];
  }

  lemma OneMore(c: Codec, ops: seq<Op>, op: Op)
    requires Delimits(c)
    ensures FileAfter(c, ops + [op]) == Apply(c, FileAfter(c, ops), op)
    ensures MarkAfter(c, ops + [op]) == NextMark(c, MarkAfter(c, ops), op)
  {
    assert (ops + [op])[..|ops|] == ops;
  }

  /** With a stray byte between members, reading stops at it and healing gets past it. */
  lemma StrayHides(c: Codec, b: seq<byte>, p: Parts)
    requires Lawful(c) && Shape(c, b, p) && p.gap != [] && p.s != [] && p.t == []
    ensures Readable(c, b, 0) == Readable(c, p.a, 0)
    ensures Healed(c, b) == Some(Kept(c, p))
  {
    hide Local, RoundTrips, Yields, Salvaged, Damage, Shape, Contains;
    var r := |p.a| + 1;
    StrayShape(c, b, p);
    Layout(c, b, p);
    ThroughReads(c, p.a, 0, b, 0);
    ThroughWalks(c, p.a, 0, b, 0);
    ThroughWalks(c, p.s, 0, b, r);
    GapWalks(c, b, p);
    StrayUnhealthy(c, b, p);
    WalkEnd(c, b);
    assert Readable(c, p.s, 0) + [] == Readable(c, p.s, 0);
    assert Readable(c, p.a, 0) + [] == Readable(c, p.a, 0);
  }

  lemma StrayShape(c: Codec, b: seq<byte>, p: Parts)
    requires Lawful(c) && Shape(c, b, p) && p.gap != []
    ensures |p.gap| == 1 && c.decode(b, |p.a|).None?
  {
    AfterGap(c, b, p);
  }

  lemma StrayUnhealthy(c: Codec, b: seq<byte>, p: Parts)
    requires Lawful(c) && Shape(c, b, p) && p.gap != []
    ensures b != [] && !Healthy(c, b, 0)
  {
    hide Local, RoundTrips, Yields, Salvaged, Damage;
    AfterGap(c, b, p);
    assert b[|p.a|] == p.gap[0];
    assert Contains(b, 0, p.a);
    HealthyThrough(c, p.a, 0, b, 0);
  }
}
