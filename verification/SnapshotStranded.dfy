/**
  Runs of the snapshot log in which a rollback fails and the service goes on (logging_utils.py): part
  of a member stays behind and whole members follow it, with or without a heal in between.
 */
module SnapshotStranded {
  import opened Options
  import opened SnapshotLog
  import opened SnapshotRuns

  /** The first `kept` bytes of a member, possibly all of it. */
  datatype Piece = Piece(lines: seq<Line>, kept: nat)

  predicate IsPiece(c: Codec, p: Piece) { AllLines(p.lines) && 0 < p.kept <= |c.encode(p.lines)| }

  predicate IsWhole(c: Codec, p: Piece) { p.kept == |c.encode(p.lines)| }

  predicate Pieces(c: Codec, ps: seq<Piece>) {
    forall i :: 0 <= i < |ps| ==> IsPiece(c, ps[i])
  }

  function Bytes(c: Codec, ps: seq<Piece>): (b: seq<byte>)
    requires Pieces(c, ps)
  {
    if ps == [] then [] else c.encode(ps[0].lines)[..ps[0].kept] + Bytes(c, ps[1..])
  }

  /** The lines of the members that are whole. */
  function LinesOf(c: Codec, ps: seq<Piece>): seq<Line> {
    if ps == [] then []
    else (if IsWhole(c, ps[0]) then ps[0].lines else []) + LinesOf(c, ps[1..])
  }

  /** Inside part of a member nothing decodes, whatever parts and members follow it. */
  ghost predicate Resyncs(c: Codec) {
    forall ps: seq<Piece>, i: nat ::
      Pieces(c, ps) && ps != [] && !IsWhole(c, ps[0]) && i < ps[0].kept ==> c.decode(Bytes(c, ps), i).None?
  }

  // ---------------------------------------------------------------- salvaging pieces

  /** Where nothing decodes up to `e` and no magic straddles it, the healer finds what it finds from `e` on. */
  lemma {:induction false} JunkWalks(c: Codec, b: seq<byte>, i: nat, e: nat)
    requires Delimits(c) && i <= e <= |b|
    requires forall j :: i <= j < e ==> c.decode(b, j).None?
    requires e < |b| ==> b[e] == ID1
    ensures Salvaged(c, b, i) == Salvaged(c, b, e)
    decreases e - i
  {
    if i == e || i + 1 >= |b| {
      assert Salvaged(c, b, i) == Salvaged(c, b, e);
    } else {
      var magic := FindMagic(b, i);
      if magic.Some? && magic.value < e {
        assert magic.value + 1 != e;
        JunkWalks(c, b, magic.value + 2, e);
      } else {
        assert FindMagic(b, e) == magic;
      }
    }
  }

  lemma StartsWithMagic(c: Codec, p: Piece)
    requires Lawful(c) && IsPiece(c, p)
    ensures MagicAt(c.encode(p.lines), 0)
  {
    Member(c, p.lines);
  }

  lemma BytesStart(c: Codec, ps: seq<Piece>)
    requires Lawful(c) && Pieces(c, ps) && ps != []
    ensures |Bytes(c, ps)| > 0 && Bytes(c, ps)[0] == ID1
  {
    StartsWithMagic(c, ps[0]);
  }

  /** Decoding at the end of a file does not depend on what comes before. */
  lemma DecodeSuffix(c: Codec, b: seq<byte>, i: nat, j: nat)
    requires Lawful(c) && i + j <= |b| && c.decode(b[i..], j).None?
    ensures c.decode(b, i + j).None?
  {
    if c.decode(b, i + j).Some? {
      var n := c.decode(b, i + j).value.1 - (i + j);
      assert b[i + j..i + j + n] == b[i..][j..j + n];
      assert SameBytes(b, i + j, b[i..], j, n);
    }
  }

  lemma {:induction false} PiecesWalk(c: Codec, b: seq<byte>, i: nat, ps: seq<Piece>)
    requires Lawful(c) && Resyncs(c) && Pieces(c, ps)
    requires i <= |b| && b[i..] == Bytes(c, ps)
    ensures Salvaged(c, b, i) == LinesOf(c, ps)
    decreases |ps|
  {
    hide Local, RoundTrips, Yields, Salvaged, IsPiece;
    if ps == [] {
      WalkEnd(c, b);
    } else {
      var e := i + ps[0].kept;
      var member := c.encode(ps[0].lines);
      NextPiece(c, b, i, ps);
      PiecesWalk(c, b, e, ps[1..]);
      if IsWhole(c, ps[0]) {
        WholePiece(c, b, i, ps);
        WalkMember(c, b, i);
      } else {
        TornPiece(c, b, i, ps);
        JunkWalks(c, b, i, e);
      }
    }
  }

  lemma NextPiece(c: Codec, b: seq<byte>, i: nat, ps: seq<Piece>)
    requires Lawful(c) && Pieces(c, ps) && ps != [] && i <= |b| && b[i..] == Bytes(c, ps)
    ensures Pieces(c, ps[1..])
    ensures var e := i + ps[0].kept;
      e <= |b| && b[e..] == Bytes(c, ps[1..]) && (e < |b| ==> b[e] == ID1)
  {
    hide Local, RoundTrips, Yields;
    var e := i + ps[0].kept;
    assert b[e..] == b[i..][ps[0].kept..];
    if e < |b| {
      assert ps[1..] != [];
      BytesStart(c, ps[1..]);
    }
  }

  lemma WholePiece(c: Codec, b: seq<byte>, i: nat, ps: seq<Piece>)
    requires Lawful(c) && Pieces(c, ps) && ps != [] && i <= |b| && b[i..] == Bytes(c, ps) && IsWhole(c, ps[0])
    ensures c.decode(b, i) == Some((ps[0].lines, i + ps[0].kept))
  {
    hide Local, Yields;
    var member := c.encode(ps[0].lines);
    assert b[i..i + |member|] == b[i..][..|member|] == member;
    WholeMember(c, ps[0].lines);
    DecodeInside(c, member, 0, b, i);
  }

  lemma TornPiece(c: Codec, b: seq<byte>, i: nat, ps: seq<Piece>)
    requires Lawful(c) && Resyncs(c) && Pieces(c, ps) && ps != [] && !IsWhole(c, ps[0])
    requires i <= |b| && b[i..] == Bytes(c, ps)
    ensures forall j :: i <= j < i + ps[0].kept ==> c.decode(b, j).None?
    ensures i < i + ps[0].kept <= |b|
  {
    hide Local, RoundTrips, Yields, Delimits;
    NextPiece(c, b, i, ps);
    forall j | i <= j < i + ps[0].kept ensures c.decode(b, j).None? {
      assert c.decode(Bytes(c, ps), j - i).None?;
      DecodeSuffix(c, b, i, j - i);
    }
  }

  // ---------------------------------------------------------------- reading and healing pieces

  predicate AllWhole(c: Codec, ps: seq<Piece>) {
    forall i :: 0 <= i < |ps| ==> IsWhole(c, ps[i])
  }

  /** All pieces are whole but perhaps the last, of which there is one byte. */
  predicate Settled(c: Codec, ps: seq<Piece>) {
    forall i :: 0 <= i < |ps| ==> IsWhole(c, ps[i]) || (i == |ps| - 1 && ps[i].kept == 1)
  }

  /** The lines before the first piece that is not whole. */
  function FrontLines(c: Codec, ps: seq<Piece>): seq<Line> {
    if ps == [] || !IsWhole(c, ps[0]) then [] else ps[0].lines + FrontLines(c, ps[1..])
  }

  /** A whole member lies behind part of one. */
  predicate Hidden(c: Codec, ps: seq<Piece>) {
    exists i, j :: 0 <= i < j < |ps| && !IsWhole(c, ps[i]) && IsWhole(c, ps[j])
  }

  lemma NoneBroken(c: Codec)
    ensures AllWhole(c, [])
  {
  }

  lemma WholeTail(c: Codec, ps: seq<Piece>)
    requires ps != []
    ensures AllWhole(c, ps) <==> IsWhole(c, ps[0]) && AllWhole(c, ps[1..])
  {
    hide IsWhole;
    if IsWhole(c, ps[0]) && AllWhole(c, ps[1..]) {
      forall i | 0 <= i < |ps| ensures IsWhole(c, ps[i]) {
        assert i > 0 ==> ps[1..][i - 1] == ps[i];
      }
    }
  }

  lemma {:induction false} PiecesRead(c: Codec, b: seq<byte>, i: nat, ps: seq<Piece>)
    requires Lawful(c) && Resyncs(c) && Pieces(c, ps)
    requires i <= |b| && b[i..] == Bytes(c, ps)
    ensures Readable(c, b, i) == FrontLines(c, ps)
    ensures Healthy(c, b, i) <==> AllWhole(c, ps)
    decreases |ps|
  {
    hide Local, RoundTrips, Yields, Resyncs, IsPiece, IsWhole, AllWhole;
    if ps == [] {
      NoneBroken(c);
      assert c.decode(b, |b|).None?;
    } else {
      WholeTail(c, ps);
      NextPiece(c, b, i, ps);
      if IsWhole(c, ps[0]) {
        WholePiece(c, b, i, ps);
        PiecesRead(c, b, i + ps[0].kept, ps[1..]);
        assert SkipZeros(b, i + ps[0].kept) == i + ps[0].kept;
      } else {
        TornPiece(c, b, i, ps);
        assert c.decode(b, i).None?;
      }
    }
  }

  lemma SettledTail(c: Codec, ps: seq<Piece>)
    requires ps != []
    ensures IsWhole(c, ps[0]) ==> (Settled(c, ps) <==> Settled(c, ps[1..]))
    ensures !IsWhole(c, ps[0]) ==> (Settled(c, ps) <==> |ps| == 1 && ps[0].kept == 1)
  {
    hide IsWhole;
    if IsWhole(c, ps[0]) && Settled(c, ps[1..]) {
      forall i | 0 <= i < |ps| ensures IsWhole(c, ps[i]) || (i == |ps| - 1 && ps[i].kept == 1) {
        assert i > 0 ==> ps[1..][i - 1] == ps[i];
      }
    }
  }

  lemma {:induction false} PiecesDamage(c: Codec, b: seq<byte>, i: nat, ps: seq<Piece>)
    requires Lawful(c) && Resyncs(c) && Pieces(c, ps)
    requires i <= |b| && b[i..] == Bytes(c, ps)
    ensures Damage(c, b, i) == 0 <==> Settled(c, ps)
    decreases |ps|
  {
    hide Local, RoundTrips, Yields, Damage, IsWhole, Settled;
    if ps == [] {
      WalkEnd(c, b);
      NothingToSettle(c);
    } else {
      SettledTail(c, ps);
      NextPiece(c, b, i, ps);
      if IsWhole(c, ps[0]) {
        WholePiece(c, b, i, ps);
        WalkMember(c, b, i);
        PiecesDamage(c, b, i + ps[0].kept, ps[1..]);
      } else {
        TornPiece(c, b, i, ps);
        if i + 1 < |b| {
          WalkDamage(c, b, i);
          assert |ps| > 1 || ps[0].kept > 1;
        } else {
          BytesNotEmpty(c, ps[1..]);
          LastByte(c, b, i);
        }
      }
    }
  }

  lemma NothingToSettle(c: Codec)
    ensures Settled(c, [])
  {
  }

  lemma BytesNotEmpty(c: Codec, ps: seq<Piece>)
    requires Pieces(c, ps)
    ensures Bytes(c, ps) == [] ==> ps == []
  {
  }

  lemma LastByte(c: Codec, b: seq<byte>, i: nat)
    requires Delimits(c) && i + 1 >= |b|
    ensures Damage(c, b, i) == 0
  {
  }

  /** The healer leaves the file alone exactly when all is whole but perhaps one byte at the end. */
  lemma HealsUnlessSettled(c: Codec, b: seq<byte>, ps: seq<Piece>)
    requires Lawful(c) && Resyncs(c) && Pieces(c, ps) && b == Bytes(c, ps)
    ensures Healed(c, b) == if Settled(c, ps) then None else Some(LinesOf(c, ps))
  {
    hide Local, RoundTrips, Yields, Resyncs, Damage, Salvaged, IsWhole;
    assert b[0..] == b;
    PiecesRead(c, b, 0, ps);
    PiecesDamage(c, b, 0, ps);
    PiecesWalk(c, b, 0, ps);
    if b == [] {
      BytesNotEmpty(c, ps);
    }
  }

  // ---------------------------------------------------------------- whole runs

  /** The lines written in full, whether acknowledged or not. */
  function WrittenLines(c: Codec, ops: seq<Op>): seq<Line> {
    if ops == [] then []
    else
      var op := ops[|ops| - 1];
      WrittenLines(c, ops[..|ops| - 1])
        + (if op.Append? || (op.Tear? && Whole(c, op)) then [op.line] else [])
  }

  /** One more member, or the first bytes of one. */
  function WithPiece(c: Codec, ps: seq<Piece>, line: Line, kept: nat): seq<Piece> {
    var length := |c.encode([line])|;
    if kept == 0 then ps else ps + [Piece([line], if kept <= length then kept else length)]
  }

  /** The pieces a run leaves, told from the operations. */
  function PiecesAfter(c: Codec, ops: seq<Op>): seq<Piece> {
    if ops == [] then []
    else
      var ps := PiecesAfter(c, ops[..|ops| - 1]);
      match ops[|ops| - 1]
      case Append(line) => WithPiece(c, ps, line, |c.encode([line])|)
      case Fail(_) => ps
      case Tear(line, kept) => WithPiece(c, ps, line, kept)
      case Heal => if Settled(c, ps) then ps else [Piece(LinesOf(c, ps), |c.encode(LinesOf(c, ps))|)]
  }

  lemma {:induction false} BytesAppend(c: Codec, ps: seq<Piece>, p: Piece)
    requires Pieces(c, ps) && IsPiece(c, p)
    ensures Pieces(c, ps + [p])
    ensures Bytes(c, ps + [p]) == Bytes(c, ps) + c.encode(p.lines)[..p.kept]
    ensures LinesOf(c, ps + [p]) == LinesOf(c, ps) + (if IsWhole(c, p) then p.lines else [])
  {
    if ps == [] {
      assert ps + [p] == [p] && [p][1..] == [];
    } else {
      BytesAppend(c, ps[1..], p);
      assert (ps + [p])[1..] == ps[1..] + [p];
    }
  }

  /** Every piece but the first holds a line. */
  predicate Full(ps: seq<Piece>) {
    forall i :: 0 < i < |ps| ==> ps[i].lines != []
  }

  lemma WriteKeeps(c: Codec, ps: seq<Piece>, line: Line, kept: nat)
    requires Lawful(c) && Pieces(c, ps) && Full(ps) && IsLine(line)
    ensures var qs := WithPiece(c, ps, line, kept);
      && Pieces(c, qs) && Full(qs)
      && Bytes(c, qs) == Bytes(c, ps) + Appended(c, line, Stranded(kept))
      && LinesOf(c, qs) == LinesOf(c, ps) + (if kept >= |c.encode([line])| then [line] else [])
  {
    hide Local, RoundTrips, Yields;
    var member := c.encode([line]);
    Member(c, [line]);
    if kept == 0 {
      assert Bytes(c, ps) + [] == Bytes(c, ps);
    } else {
      BytesAppend(c, ps, Piece([line], if kept <= |member| then kept else |member|));
    }
  }

  lemma HealKeepsPieces(c: Codec, b: seq<byte>, ps: seq<Piece>)
    requires Lawful(c) && Resyncs(c) && Pieces(c, ps) && b == Bytes(c, ps) && !Settled(c, ps)
    ensures var p := Piece(LinesOf(c, ps), |c.encode(LinesOf(c, ps))|);
      Pieces(c, [p]) && Full([p]) && Bytes(c, [p]) == Apply(c, b, Heal) && LinesOf(c, [p]) == LinesOf(c, ps)
  {
    hide Local, RoundTrips, Yields, Resyncs, Settled, Healed;
    HealsUnlessSettled(c, b, ps);
    SalvagedLines(c, b);
    Member(c, LinesOf(c, ps));
    var p := Piece(LinesOf(c, ps), |c.encode(LinesOf(c, ps))|);
    BytesAppend(c, [], p);
    assert [] + [p] == [p];
  }

  lemma {:induction false} RunPieces(c: Codec, ops: seq<Op>)
    requires Lawful(c) && Resyncs(c) && WritesLines(ops)
    ensures var ps := PiecesAfter(c, ops);
      Pieces(c, ps) && Full(ps) && Bytes(c, ps) == FileAfter(c, ops) && LinesOf(c, ps) == WrittenLines(c, ops)
  {
    hide Local, RoundTrips, Yields, Resyncs, Pieces, Full, Bytes, LinesOf, Healed, WithPiece, Settled;
    if ops == [] {
      NoPieces(c);
    } else {
      var n := |ops| - 1;
      var before, op := ops[..n], ops[n];
      var ps := PiecesAfter(c, before);
      RunPieces(c, before);
      match op
      case Append(line) =>
        WriteKeeps(c, ps, line, |c.encode([line])|);
      case Fail(_) =>
        assert FileAfter(c, before) + [] == FileAfter(c, before);
      case Tear(line, kept) =>
        WriteKeeps(c, ps, line, kept);
      case Heal =>
        HealsUnlessSettled(c, FileAfter(c, before), ps);
        if !Settled(c, ps) {
          HealKeepsPieces(c, FileAfter(c, before), ps);
        }
    }
  }

  lemma NoPieces(c: Codec)
    ensures Pieces(c, []) && Full([]) && Bytes(c, []) == [] && LinesOf(c, []) == []
  {
  }

  lemma {:induction false} AcknowledgedWritten(c: Codec, ops: seq<Op>)
    ensures Subsequence(Acknowledged(ops), WrittenLines(c, ops))
  {
    if ops == [] {
      assert Acknowledged(ops) == [];
    } else {
      var before, op := ops[..|ops| - 1], ops[|ops| - 1];
      AcknowledgedWritten(c, before);
      if op.Append? {
        SubsequenceAppend(Acknowledged(before), WrittenLines(c, before), op.line);
      } else {
        assert Acknowledged(ops) == Acknowledged(before);
        SubsequenceExtend(Acknowledged(before), WrittenLines(c, before),
                          if op.Tear? && Whole(c, op) then [op.line] else []);
      }
    }
  }

  lemma {:induction false} FrontIsAll(c: Codec, ps: seq<Piece>)
    requires Full(ps)
    ensures FrontLines(c, ps) <= LinesOf(c, ps)
    ensures FrontLines(c, ps) == LinesOf(c, ps) <==> !Hidden(c, ps)
  {
    hide IsWhole;
    if ps == [] {
      assert LinesOf(c, ps) == [];
    } else {
      var rest := ps[1..];
      if IsWhole(c, ps[0]) {
        FrontIsAll(c, rest);
        HiddenTail(c, ps);
        assert FrontLines(c, ps) == ps[0].lines + FrontLines(c, rest);
        assert LinesOf(c, ps) == ps[0].lines + LinesOf(c, rest);
        assert |FrontLines(c, rest)| == |LinesOf(c, rest)| <==> FrontLines(c, rest) == LinesOf(c, rest);
      } else {
        BehindTorn(c, rest);
        HiddenBehind(c, ps);
      }
    }
  }

  lemma HiddenTail(c: Codec, ps: seq<Piece>)
    requires ps != [] && IsWhole(c, ps[0])
    ensures Hidden(c, ps) <==> Hidden(c, ps[1..])
  {
    hide IsWhole;
    var rest := ps[1..];
    if Hidden(c, rest) {
      var i, j :| 0 <= i < j < |rest| && !IsWhole(c, rest[i]) && IsWhole(c, rest[j]);
      assert !IsWhole(c, ps[i + 1]) && IsWhole(c, ps[j + 1]);
    }
    if Hidden(c, ps) {
      var i, j :| 0 <= i < j < |ps| && !IsWhole(c, ps[i]) && IsWhole(c, ps[j]);
      assert !IsWhole(c, rest[i - 1]) && IsWhole(c, rest[j - 1]);
    }
  }

  predicate SomeWhole(c: Codec, ps: seq<Piece>) {
    exists j :: 0 <= j < |ps| && IsWhole(c, ps[j])
  }

  lemma HiddenBehind(c: Codec, ps: seq<Piece>)
    requires ps != [] && !IsWhole(c, ps[0])
    ensures Hidden(c, ps) <==> SomeWhole(c, ps[1..])
  {
    hide IsWhole;
    if SomeWhole(c, ps[1..]) {
      var j :| 0 <= j < |ps[1..]| && IsWhole(c, ps[1..][j]);
      assert IsWhole(c, ps[j + 1]);
    }
    if Hidden(c, ps) {
      var i, j :| 0 <= i < j < |ps| && !IsWhole(c, ps[i]) && IsWhole(c, ps[j]);
      assert IsWhole(c, ps[1..][j - 1]);
    }
  }

  lemma {:induction false} BehindTorn(c: Codec, ps: seq<Piece>)
    requires forall i :: 0 <= i < |ps| ==> ps[i].lines != []
    ensures LinesOf(c, ps) == [] <==> !SomeWhole(c, ps)
  {
    hide IsWhole;
    if ps == [] {
      assert LinesOf(c, ps) == [];
    } else {
      BehindTorn(c, ps[1..]);
      if IsWhole(c, ps[0]) {
        assert SomeWhole(c, ps);
      } else {
        assert SomeWhole(c, ps[1..]) <==> SomeWhole(c, ps) by {
          if SomeWhole(c, ps) {
            var j :| 0 <= j < |ps| && IsWhole(c, ps[j]);
            assert IsWhole(c, ps[1..][j - 1]);
          }
        }
      }
    }
  }

  /**
    Through any run at all, writes after a failed rollback and crashes without a heal included, what
    can be salvaged is exactly what was written in full, acknowledged lines among it. A reader gets
    all of it if and only if, by the operations alone, no whole member lies behind part of one.
   */
  lemma AnyRunIsSalvaged(c: Codec, ops: seq<Op>)
    requires Lawful(c) && Resyncs(c) && WritesLines(ops)
    ensures Salvaged(c, FileAfter(c, ops), 0) == WrittenLines(c, ops)
    ensures Subsequence(Acknowledged(ops), WrittenLines(c, ops))
    ensures Readable(c, FileAfter(c, ops), 0) <= WrittenLines(c, ops)
    ensures Readable(c, FileAfter(c, ops), 0) == WrittenLines(c, ops) <==> !Hidden(c, PiecesAfter(c, ops))
  {
    hide Local, RoundTrips, Yields, Resyncs, Pieces, FileAfter, PiecesAfter, Full;
    var b, ps := FileAfter(c, ops), PiecesAfter(c, ops);
    RunPieces(c, ops);
    assert b[0..] == b;
    PiecesWalk(c, b, 0, ps);
    PiecesRead(c, b, 0, ps);
    FrontIsAll(c, ps);
    AcknowledgedWritten(c, ops);
  }
}
