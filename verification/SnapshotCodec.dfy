/**
  A concrete codec with the properties asked of gzip in `SnapshotLog`: the assumptions can be met.
  A member is the two magic bytes and the lines, each byte flagged, each line and the member ended.
 */
module SnapshotCodec {
  import opened Options
  import opened SnapshotLog
  import opened SnapshotStranded

  const END: byte := 0
  const LINE: byte := 1
  const DATA: byte := 2

  function LineBody(line: Line, rest: seq<byte>): seq<byte> {
    if line == [] then [LINE] + rest else [DATA, line[0]] + LineBody(line[1..], rest)
  }

  function Body(lines: seq<Line>): seq<byte> {
    if lines == [] then [END] else LineBody(lines[0], Body(lines[1..]))
  }

  function Encode(lines: seq<Line>): seq<byte> { [ID1, ID2] + Body(lines) }

  /** The lines from `i` on, and where they end. */
  function Parse(b: seq<byte>, i: nat): (r: Option<(seq<Line>, nat)>)
    ensures r.Some? ==> i < r.value.1 <= |b|
    decreases |b| - i
  {
    if i >= |b| then None
    else if b[i] == END then Some(([], i + 1))
    else if b[i] == LINE then
      var rest := Parse(b, i + 1);
      if rest.None? then None else Some(([[]] + rest.value.0, rest.value.1))
    else if b[i] == DATA && i + 1 < |b| then
      var rest := Parse(b, i + 2);
      if rest.None? || rest.value.0 == [] then None
      else Some(([[b[i + 1]] + rest.value.0[0]] + rest.value.0[1..], rest.value.1))
    else None
  }

  function Decode(b: seq<byte>, i: nat): Option<(seq<Line>, nat)> {
    if !MagicAt(b, i) then None
    else
      var lines := Parse(b, i + 2);
      if lines.Some? && AllLines(lines.value.0) then lines else None
  }

  const FRAMED := Codec((lines: seq<Line>) => Encode(lines), (b: seq<byte>, i: nat) => Decode(b, i))

  lemma {:induction false} ParseLocal(b: seq<byte>, i: nat, d: seq<byte>, j: nat, n: nat)
    requires SameBytes(b, i, d, j, n)
    requires Parse(b, i).Some? && Parse(b, i).value.1 == i + n
    ensures Parse(d, j) == Some((Parse(b, i).value.0, j + n))
    decreases n
  {
    hide SameBytes;
    SameAt(b, i, d, j, n, 0);
    if b[i] == END {
      assert d[j] == END;
    } else if b[i] == LINE {
      SameTail(b, i, d, j, n, 1);
      ParseLocal(b, i + 1, d, j + 1, n - 1);
    } else {
      SameAt(b, i, d, j, n, 1);
      SameTail(b, i, d, j, n, 2);
      ParseLocal(b, i + 2, d, j + 2, n - 2);
    }
  }

  lemma SameAt(b: seq<byte>, i: nat, d: seq<byte>, j: nat, n: nat, k: nat)
    requires SameBytes(b, i, d, j, n) && k < n
    ensures i + k < |b| && j + k < |d| && b[i + k] == d[j + k]
  {
    assert b[i..i + n][k] == d[j..j + n][k];
  }

  lemma SameTail(b: seq<byte>, i: nat, d: seq<byte>, j: nat, n: nat, k: nat)
    requires SameBytes(b, i, d, j, n) && k <= n
    ensures SameBytes(b, i + k, d, j + k, n - k)
  {
    assert b[i..i + n][k..] == b[i + k..i + n];
    assert d[j..j + n][k..] == d[j + k..j + n];
  }

  lemma {:induction false} ParseLine(b: seq<byte>, i: nat, line: Line, rest: seq<byte>)
    requires i <= |b| && b[i..] == LineBody(line, rest) && |rest| <= |b| - i
    ensures |rest| <= |b| - i && |LineBody(line, rest)| >= |rest|
    ensures var k := |b| - |rest|;
      Parse(b, k).Some? ==> Parse(b, i) == Some(([line] + Parse(b, k).value.0, Parse(b, k).value.1))
    decreases |line|
  {
    var k := |b| - |rest|;
    if line == [] {
      assert b[i..][0] == LINE;
      assert |b| - i == 1 + |rest|;
    } else {
      assert b[i..][0] == DATA && b[i..][1] == line[0];
      assert b[i..][2..] == LineBody(line[1..], rest) == b[i + 2..];
      LineBodyLonger(line[1..], rest);
      ParseLine(b, i + 2, line[1..], rest);
      assert [line[0]] + line[1..] == line;
    }
  }

  lemma {:induction false} LineBodyLonger(line: Line, rest: seq<byte>)
    ensures |LineBody(line, rest)| > |rest|
    ensures LineBody(line, rest)[|LineBody(line, rest)| - |rest|..] == rest
  {
    if line == [] {
    } else {
      LineBodyLonger(line[1..], rest);
      var inner, outer := LineBody(line[1..], rest), LineBody(line, rest);
      assert outer[|outer| - |rest|..] == inner[|inner| - |rest|..];
    }
  }

  lemma {:induction false} ParseBody(b: seq<byte>, i: nat, lines: seq<Line>)
    requires i <= |b| && b[i..] == Body(lines)
    ensures Parse(b, i) == Some((lines, |b|))
    decreases |lines|
  {
    if lines == [] {
      assert b[i..][0] == END;
    } else {
      var rest := Body(lines[1..]);
      var k := |b| - |rest|;
      LineBodyLonger(lines[0], rest);
      assert b[k..] == b[i..][|b[i..]| - |rest|..];
      ParseBody(b, k, lines[1..]);
      ParseLine(b, i, lines[0], rest);
      assert [lines[0]] + lines[1..] == lines;
    }
  }

  lemma DecodeLocal(b: seq<byte>, i: nat, d: seq<byte>, j: nat, n: nat)
    requires SameBytes(b, i, d, j, n) && Decode(b, i).Some? && Decode(b, i).value.1 == i + n
    ensures Decode(d, j) == Some((Decode(b, i).value.0, j + n))
  {
    hide SameBytes, AllLines;
    SameAt(b, i, d, j, n, 0);
    SameAt(b, i, d, j, n, 1);
    SameTail(b, i, d, j, n, 2);
    ParseLocal(b, i + 2, d, j + 2, n - 2);
  }

  lemma FramedLocal()
    ensures Local(FRAMED)
  {
    forall b: seq<byte>, i: nat, d: seq<byte>, j: nat, n: nat
      | SameBytes(b, i, d, j, n) && FRAMED.decode(b, i).Some? && FRAMED.decode(b, i).value.1 == i + n
      ensures FRAMED.decode(d, j) == Some((FRAMED.decode(b, i).value.0, j + n))
    {
      DecodeLocal(b, i, d, j, n);
    }
  }

  lemma FramedRoundTrips()
    ensures RoundTrips(FRAMED)
  {
    forall lines | AllLines(lines)
      ensures FRAMED.decode(FRAMED.encode(lines), 0) == Some((lines, |FRAMED.encode(lines)|))
    {
      var b := Encode(lines);
      assert b[2..] == Body(lines);
      ParseBody(b, 2, lines);
    }
  }

  // ---------------------------------------------------------------- after part of a member

  /** From `j` on a body: flagged bytes and line ends, then the end mark and nothing more. */
  predicate Flagged(s: seq<byte>, j: nat)
    decreases |s| - j
  {
    j < |s| &&
    if s[j] == END then j + 1 == |s|
    else if s[j] == LINE then Flagged(s, j + 1)
    else s[j] == DATA && Flagged(s, j + 2)
  }

  lemma {:induction false} LineFlagged(line: Line, rest: seq<byte>)
    requires Flagged(rest, 0)
    ensures Flagged(LineBody(line, rest), 0)
  {
    var s := LineBody(line, rest);
    if line == [] {
      FlaggedShift(rest, 0, s, 1);
    } else {
      LineFlagged(line[1..], rest);
      FlaggedShift(LineBody(line[1..], rest), 0, s, 2);
    }
  }

  lemma {:induction false} FlaggedShift(s: seq<byte>, j: nat, t: seq<byte>, k: nat)
    requires Flagged(s, j) && k + |s| == |t| && t[k..] == s
    ensures Flagged(t, k + j)
    decreases |s| - j
  {
    assert t[k + j] == t[k..][j];
    if s[j] == LINE {
      FlaggedShift(s, j + 1, t, k);
    } else if s[j] == DATA {
      FlaggedShift(s, j + 2, t, k);
    }
  }

  lemma {:induction false} BodyFlagged(lines: seq<Line>)
    ensures Flagged(Body(lines), 0)
  {
    if lines == [] {
      assert Body(lines) == [END];
    } else {
      BodyFlagged(lines[1..]);
      LineFlagged(lines[0], Body(lines[1..]));
    }
  }

  /** What may follow part of a member: nothing, or magic bytes of which the second may be missing. */
  predicate Follows(b: seq<byte>, e: nat) {
    && (e < |b| ==> b[e] == ID1)
    && (e + 1 < |b| ==> b[e + 1] == ID1 || b[e + 1] == ID2)
  }

  /** A body broken off at `e` does not parse, and no magic starts in it. */
  lemma {:induction false} BrokenBody(s: seq<byte>, j: nat, b: seq<byte>, i: nat, e: nat)
    requires Flagged(s, j) && i <= e <= |b| && j + (e - i) < |s| && Follows(b, e)
    requires b[i..e] == s[j..j + (e - i)]
    ensures Parse(b, i).None?
    ensures forall k :: i <= k < e ==> !MagicAt(b, k)
    decreases e - i
  {
    if i < e {
      assert b[i] == b[i..e][0] == s[j];
      if s[j] == LINE {
        assert b[i + 1..e] == b[i..e][1..];
        BrokenBody(s, j + 1, b, i + 1, e);
      } else if i + 2 <= e {
        assert b[i + 2..e] == b[i..e][2..];
        BrokenBody(s, j + 2, b, i + 2, e);
        assert i + 2 < e ==> b[i + 2] != ID2;
      } else {
        assert Parse(b, i + 2).None?;
      }
    }
  }

  lemma PiecesFollow(ps: seq<Piece>, b: seq<byte>, e: nat)
    requires Pieces(FRAMED, ps) && e <= |b| && b[e..] == Bytes(FRAMED, ps)
    ensures Follows(b, e)
  {
    if ps != [] {
      var rest := b[e..];
      assert rest[0] == ID1;
      if ps[0].kept >= 2 {
        assert e + 1 < |b| ==> b[e + 1] == rest[1] == ID2;
      } else if ps[1..] != [] {
        assert Bytes(FRAMED, ps[1..])[0] == ID1;
        assert rest[1] == ID1;
      }
    }
  }

  lemma FramedResyncs()
    ensures Resyncs(FRAMED)
  {
    forall ps: seq<Piece>, i: nat
      | Pieces(FRAMED, ps) && ps != [] && !IsWhole(FRAMED, ps[0]) && i < ps[0].kept
      ensures FRAMED.decode(Bytes(FRAMED, ps), i).None?
    {
      BrokenMember(ps, i);
    }
  }

  lemma BrokenMember(ps: seq<Piece>, i: nat)
    requires Pieces(FRAMED, ps) && ps != [] && !IsWhole(FRAMED, ps[0]) && i < ps[0].kept
    ensures Decode(Bytes(FRAMED, ps), i).None?
  {
    var b, e := Bytes(FRAMED, ps), ps[0].kept;
    var member := Encode(ps[0].lines);
    assert b[..e] == member[..e] && b[e..] == Bytes(FRAMED, ps[1..]);
    PiecesFollow(ps[1..], b, e);
    assert member[0] == ID1 && member[1] == ID2;
    if e == 1 {
      assert !MagicAt(b, 0);
    } else {
      var body := Body(ps[0].lines);
      BodyFlagged(ps[0].lines);
      assert b[2..e] == b[..e][2..] == member[..e][2..] == body[0..e - 2];
      BrokenBody(body, 0, b, 2, e);
      assert b[1] == b[..e][1] == ID2;
    }
  }

  /** The codec laws can be met, that of starting afresh after part of a member too. */
  lemma FramedIsLawful()
    ensures Lawful(FRAMED) && Resyncs(FRAMED)
  {
    FramedLocal();
    FramedRoundTrips();
    FramedResyncs();
  }
}
