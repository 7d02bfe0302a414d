/** The line splitter of Main.java: one pass over the characters of a line
    that toggles a quote flag on every `"`, splits on `,` or tab outside
    quotes, and trims every field. */
module Csv {

  predicate IsSeparator(c: char)
  {
    c == ',' || c == '\t'
  }

  /** `String.trim` removes leading and trailing characters up to U+0020. */
  predicate IsSpace(c: char)
  {
    c <= ' '
  }

  predicate IsTrimmed(s: string)
  {
    s == [] || (!IsSpace(s[0]) && !IsSpace(s[|s| - 1]))
  }

  function TrimStart(s: string): (r: string)
    ensures |r| <= |s| && r == s[|s| - |r|..]
    ensures forall k :: 0 <= k < |s| - |r| ==> IsSpace(s[k])
    ensures r == [] || !IsSpace(r[0])
  {
    if s != [] && IsSpace(s[0]) then TrimStart(s[1..]) else s
  }

  function TrimEnd(s: string): (r: string)
    ensures |r| <= |s| && r == s[..|r|]
    ensures forall k :: |r| <= k < |s| ==> IsSpace(s[k])
    ensures r == [] || !IsSpace(r[|r| - 1])
  {
    if s != [] && IsSpace(s[|s| - 1]) then TrimEnd(s[..|s| - 1]) else s
  }

  /** `r` is the slice of `s` starting at `i`, with nothing but spaces before
      and after it. */
  predicate SliceBetweenSpaces(s: string, r: string, i: nat)
  {
    i + |r| <= |s| && r == s[i..i + |r|] &&
    (forall k :: 0 <= k < i ==> IsSpace(s[k])) &&
    (forall k :: i + |r| <= k < |s| ==> IsSpace(s[k]))
  }

  /** `String.trim`: the part of `s` left when the leading and the trailing
      spaces are removed; nothing but spaces is removed. */
  function Trim(s: string): (r: string)
    ensures IsTrimmed(r)
    ensures SliceBetweenSpaces(s, r, |s| - |TrimStart(s)|)
  {
    TrimSlice(s);
    TrimEnd(TrimStart(s))
  }

  lemma TrimSlice(s: string)
    ensures IsTrimmed(TrimEnd(TrimStart(s)))
    ensures SliceBetweenSpaces(s, TrimEnd(TrimStart(s)), |s| - |TrimStart(s)|)
  {
    var t := TrimStart(s);
    var r := TrimEnd(t);
    assert r != [] ==> r[0] == t[0];
    SliceOfSlice(s, t, r);
  }

  /** A prefix `r` of a suffix `t` of `s`, with spaces around both cuts, sits
      between spaces in `s`. */
  lemma SliceOfSlice(s: string, t: string, r: string)
    requires |t| <= |s| && t == s[|s| - |t|..]
    requires forall k :: 0 <= k < |s| - |t| ==> IsSpace(s[k])
    requires |r| <= |t| && r == t[..|r|]
    requires forall k :: |r| <= k < |t| ==> IsSpace(t[k])
    ensures SliceBetweenSpaces(s, r, |s| - |t|)
  {
    var i := |s| - |t|;
    forall k | i + |r| <= k < |s| ensures IsSpace(s[k]) {
      assert s[k] == t[k - i];
    }
  }

  lemma TrimKeepsOut(s: string, c: char)
    requires c !in s
    ensures c !in Trim(s)
  {
  }

  // ---------------------------------------------------------------------
  // The scanner, as a left fold over the characters

  /** The loop state after a prefix of the line: the pieces already split off
      (untrimmed), the characters collected since the last split, and the
      quote flag. */
  datatype ScanState = ScanState(pieces: seq<string>, current: string, inQuotes: bool)

  /** One iteration of the loop. */
  function Step(st: ScanState, c: char): ScanState
  {
    if c == '"' then st.(inQuotes := !st.inQuotes)
    else if IsSeparator(c) && !st.inQuotes then ScanState(st.pieces + [st.current], [], st.inQuotes)
    else st.(current := st.current + [c])
  }

  /** The flag flips exactly on a quote; no character is lost except a quote
      or a splitting separator; a piece already split off never changes, and
      at most one is added. */
  lemma StepKeeps(st: ScanState, c: char)
    ensures Step(st, c).inQuotes == (st.inQuotes != (c == '"'))
    ensures Concat(Step(st, c).pieces) + Step(st, c).current ==
      Concat(st.pieces) + st.current + (if c == '"' || (IsSeparator(c) && !st.inQuotes) then [] else [c])
    ensures |st.pieces| <= |Step(st, c).pieces| <= |st.pieces| + 1
    ensures Step(st, c).pieces[..|st.pieces|] == st.pieces
  {
    if c != '"' && IsSeparator(c) && !st.inQuotes {
      var ps := st.pieces + [st.current];
      assert ps[..|ps| - 1] == st.pieces;
    }
  }

  /** The loop run over a whole string. The quote flag is the parity of the
      quotes read, and the pieces and the current field, joined, are exactly
      the kept characters. */
  function Scan(s: string): (r: ScanState)
    ensures r.inQuotes == QuotedAfter(s)
    ensures Concat(r.pieces) + r.current == Kept(s)
  {
    if s == [] then ScanState([], [], false)
    else
      var p, c := s[..|s| - 1], s[|s| - 1];
      assert s == p + [c];
      assert multiset(s) == multiset(p) + multiset{c};
      StepKeeps(Scan(p), c);
      Step(Scan(p), c)
  }

  /** The untrimmed fields of a line. */
  function Pieces(line: string): seq<string>
  {
    var st := Scan(line);
    st.pieces + [st.current]
  }

  function TrimAll(xs: seq<string>): (r: seq<string>)
    ensures |r| == |xs| && forall k :: 0 <= k < |xs| ==> r[k] == Trim(xs[k])
  {
    seq(|xs|, k requires 0 <= k < |xs| => Trim(xs[k]))
  }

  /** The fields `parseCSVLine` returns. */
  function SplitLine(line: string): seq<string>
  {
    TrimAll(Pieces(line))
  }

  // ---------------------------------------------------------------------
  // Reference definitions by quote parity

  /** A position is inside quotes when an odd number of `"` precede it. */
  predicate QuotedAfter(s: string)
  {
    multiset(s)['"'] % 2 == 1
  }

  /** The positions that split the line: separators preceded by an even number
      of quotes, in increasing order. */
  function SplitPositions(s: string): (ps: seq<nat>)
    ensures forall k :: 0 <= k < |ps| ==> ps[k] < |s|
    ensures forall k, l :: 0 <= k < l < |ps| ==> ps[k] < ps[l]
  {
    if s == [] then []
    else
      var p, c := s[..|s| - 1], s[|s| - 1];
      SplitPositions(p) + (if IsSeparator(c) && !QuotedAfter(p) then [|p|] else [])
  }

  function SeparatorCount(s: string): nat
  {
    |SplitPositions(s)|
  }

  /** The start of the `k`-th segment: the line's start, or just after the
      `k`-th splitting separator. */
  function SegmentStart(ps: seq<nat>, k: nat): nat
    requires k <= |ps|
  {
    if k == 0 then 0 else ps[k - 1] + 1
  }

  /** The end of the `k`-th segment: the next splitting separator, or the
      line's end. */
  function SegmentEnd(ps: seq<nat>, n: nat, k: nat): nat
    requires k <= |ps|
  {
    if k == |ps| then n else ps[k]
  }

  function NoQuotes(s: string): string
  {
    if s == [] then []
    else
      var p, c := s[..|s| - 1], s[|s| - 1];
      NoQuotes(p) + (if c == '"' then [] else [c])
  }

  /** The fields of a line by quote parity alone: the segments between
      splitting separators, with the quotes dropped, each trimmed. */
  function Fields(line: string): (fs: seq<string>)
    ensures |fs| == SeparatorCount(line) + 1
  {
    var ps := SplitPositions(line);
    seq(|ps| + 1, k requires 0 <= k <= |ps| =>
      Trim(NoQuotes(line[SegmentStart(ps, k)..SegmentEnd(ps, |line|, k)])))
  }

  /** The characters that end up in some field: everything but the quotes and
      the splitting separators. */
  function Kept(s: string): string
  {
    if s == [] then []
    else
      var p, c := s[..|s| - 1], s[|s| - 1];
      Kept(p) + (if c == '"' || (IsSeparator(c) && !QuotedAfter(p)) then [] else [c])
  }

  function Concat(xs: seq<string>): string
  {
    if xs == [] then [] else Concat(xs[..|xs| - 1]) + xs[|xs| - 1]
  }

  lemma NoQuotesAppend(x: string, c: char)
    ensures NoQuotes(x + [c]) == NoQuotes(x) + (if c == '"' then [] else [c])
  {
    assert (x + [c])[..|x|] == x;
  }

  /** Positions below `n`, in increasing order. */
  predicate Increasing(ps: seq<nat>, n: nat)
  {
    (forall k :: 0 <= k < |ps| ==> ps[k] < n) &&
    (forall k, l :: 0 <= k < l < |ps| ==> ps[k] < ps[l])
  }

  /** `st` splits `s` at the positions `ps`: its pieces are the segments
      between them and its current field the segment after the last one,
      quotes dropped. */
  predicate SplitAt(st: ScanState, s: string, ps: seq<nat>)
  {
    Increasing(ps, |s|) && |st.pieces| == |ps| &&
    (forall k {:trigger st.pieces[k]} :: 0 <= k < |ps| ==>
      st.pieces[k] == NoQuotes(s[SegmentStart(ps, k)..ps[k]])) &&
    st.current == NoQuotes(s[SegmentStart(ps, |ps|)..])
  }

  /** The scanner's state splits the string read at its splitting separators. */
  predicate SegmentsOf(st: ScanState, s: string)
  {
    SplitAt(st, s, SplitPositions(s))
  }

  /** The scanner splits exactly at the splitting separators. */
  lemma {:induction false} ScanSegments(s: string)
    ensures SegmentsOf(Scan(s), s)
  {
    if s != [] {
      var p, c := s[..|s| - 1], s[|s| - 1];
      ScanSegments(p);
      var st, r := Scan(p), Scan(s);
      assert r == Step(st, c);
      var ps, qs := SplitPositions(p), SplitPositions(s);
      if c != '"' && IsSeparator(c) && !QuotedAfter(p) {
        assert r.pieces == st.pieces + [st.current] && r.current == [];
        assert qs == ps + [|s| - 1];
        SplitStep(st, r, s, ps, qs);
      } else {
        assert r.pieces == st.pieces && r.current == st.current + (if c == '"' then [] else [c]);
        assert qs == ps;
        ExtendStep(st, r, s, ps);
      }
    }
  }

  /** A splitting separator closes the current field as a new piece. */
  lemma SplitStep(st: ScanState, r: ScanState, s: string, ps: seq<nat>, qs: seq<nat>)
    requires s != [] && SplitAt(st, s[..|s| - 1], ps) && qs == ps + [|s| - 1]
    requires r.pieces == st.pieces + [st.current] && r.current == []
    ensures SplitAt(r, s, qs)
  {
    var n := |s| - 1;
    assert Increasing(qs, |s|);
    OldPiecesKept(st, r, s, ps, qs);
    NewPieceClosed(st, r, s, ps, qs);
    forall k | 0 <= k < |qs| ensures r.pieces[k] == NoQuotes(s[SegmentStart(qs, k)..qs[k]]) {
      if k == |ps| {
      }
    }
    EmptySuffix(s, SegmentStart(qs, |qs|));
  }

  /** The piece just split off is the segment after the previous splitting
      separator, up to the new one. */
  lemma NewPieceClosed(st: ScanState, r: ScanState, s: string, ps: seq<nat>, qs: seq<nat>)
    requires s != [] && SplitAt(st, s[..|s| - 1], ps) && qs == ps + [|s| - 1]
    requires r.pieces == st.pieces + [st.current]
    ensures r.pieces[|ps|] == NoQuotes(s[SegmentStart(qs, |ps|)..qs[|ps|]])
  {
    var n := |s| - 1;
    var i := SegmentStart(ps, |ps|);
    assert SegmentStart(qs, |ps|) == i && qs[|ps|] == n;
    SliceOfPrefix(s, n, i, n);
    SuffixIsSlice(s[..n], i);
  }

  /** The pieces already split off stay as they were. */
  lemma OldPiecesKept(st: ScanState, r: ScanState, s: string, ps: seq<nat>, qs: seq<nat>)
    requires s != [] && SplitAt(st, s[..|s| - 1], ps) && qs == ps + [|s| - 1]
    requires r.pieces == st.pieces + [st.current]
    ensures forall k :: 0 <= k < |ps| ==> r.pieces[k] == NoQuotes(s[SegmentStart(qs, k)..qs[k]])
  {
    forall k | 0 <= k < |ps| ensures r.pieces[k] == NoQuotes(s[SegmentStart(qs, k)..qs[k]]) {
      assert SegmentStart(qs, k) == SegmentStart(ps, k) && qs[k] == ps[k];
      SliceOfPrefix(s, |s| - 1, SegmentStart(ps, k), ps[k]);
    }
  }

  /** Any other character leaves the pieces alone and, unless it is a quote,
      joins the current field. */
  lemma ExtendStep(st: ScanState, r: ScanState, s: string, ps: seq<nat>)
    requires s != [] && SplitAt(st, s[..|s| - 1], ps)
    requires r.pieces == st.pieces
    requires r.current == st.current + (if s[|s| - 1] == '"' then [] else [s[|s| - 1]])
    ensures SplitAt(r, s, ps)
  {
    var n := |s| - 1;
    forall k | 0 <= k < |ps| ensures r.pieces[k] == NoQuotes(s[SegmentStart(ps, k)..ps[k]]) {
      SliceOfPrefix(s, n, SegmentStart(ps, k), ps[k]);
    }
    var i := SegmentStart(ps, |ps|);
    SuffixOfSnoc(s, i);
    NoQuotesAppend(s[..n][i..], s[n]);
  }

  lemma SuffixOfSnoc(s: string, i: nat)
    requires i < |s|
    ensures s[i..] == s[..|s| - 1][i..] + [s[|s| - 1]]
  {
  }

  lemma SuffixIsSlice(s: string, i: nat)
    requires i <= |s|
    ensures s[i..] == s[i..|s|]
  {
  }

  lemma EmptySuffix(s: string, i: nat)
    requires i == |s|
    ensures s[i..] == []
  {
  }

  lemma SliceOfPrefix(s: string, n: nat, i: nat, j: nat)
    requires i <= j <= n <= |s|
    ensures s[..n][i..j] == s[i..j]
  {
    assert forall k :: 0 <= k < j - i ==> s[..n][i..j][k] == s[i..j][k];
  }

  /** No quote character is ever collected. */
  lemma {:induction false} ScanQuoteFree(s: string)
    ensures QuoteFree(Scan(s))
  {
    if s != [] {
      var p := s[..|s| - 1];
      ScanQuoteFree(p);
      assert Scan(s) == Step(Scan(p), s[|s| - 1]);
      StepQuoteFree(Scan(p), s[|s| - 1]);
    }
  }

  /** Neither the pieces nor the current field hold a quote. */
  predicate QuoteFree(st: ScanState)
  {
    '"' !in st.current && forall k :: 0 <= k < |st.pieces| ==> '"' !in st.pieces[k]
  }

  lemma StepQuoteFree(st: ScanState, c: char)
    requires QuoteFree(st)
    ensures QuoteFree(Step(st, c))
  {
  }

  /** What the scanner's state means after any prefix. */
  lemma ScanInvariant(s: string)
    ensures Scan(s).inQuotes == QuotedAfter(s)
    ensures |Scan(s).pieces| == SeparatorCount(s)
    ensures Concat(Scan(s).pieces) + Scan(s).current == Kept(s)
    ensures '"' !in Scan(s).current
    ensures forall k :: 0 <= k < |Scan(s).pieces| ==> '"' !in Scan(s).pieces[k]
    ensures SegmentsOf(Scan(s), s)
  {
    ScanSegments(s);
    ScanQuoteFree(s);
  }

  /** `parseCSVLine` returns one field more than there are splitting
      separators; every field is trimmed and free of `"`. */
  lemma SplitLineShape(line: string)
    ensures |SplitLine(line)| == SeparatorCount(line) + 1
    ensures forall k :: 0 <= k < |SplitLine(line)| ==>
      IsTrimmed(SplitLine(line)[k]) && '"' !in SplitLine(line)[k]
  {
    ScanInvariant(line);
    var ps := Pieces(line);
    forall k | 0 <= k < |ps| ensures '"' !in Trim(ps[k]) {
      TrimKeepsOut(ps[k], '"');
    }
  }

  /** The fields are exactly the segments between the splitting separators,
      quotes dropped and trimmed; the untrimmed pieces, joined, are the kept
      characters of the line. */
  lemma SplitLineContents(line: string)
    ensures SplitLine(line) == Fields(line)
    ensures |SplitLine(line)| == |Pieces(line)|
    ensures forall k :: 0 <= k < |Pieces(line)| ==> SplitLine(line)[k] == Trim(Pieces(line)[k])
    ensures Concat(Pieces(line)) == Kept(line)
  {
    ScanSegments(line);
    var qs := SplitPositions(line);
    var fs := Fields(line);
    forall k | 0 <= k < |fs| ensures SplitLine(line)[k] == fs[k] {
      PieceIsSegment(Scan(line), line, qs, k);
    }
  }

  /** Piece k of a state split at `qs` is the segment between the k-th and the
      (k+1)-th position, the last one running to the end of the line. */
  lemma PieceIsSegment(st: ScanState, s: string, qs: seq<nat>, k: nat)
    requires SplitAt(st, s, qs) && k <= |qs|
    ensures (st.pieces + [st.current])[k] == NoQuotes(s[SegmentStart(qs, k)..SegmentEnd(qs, |s|, k)])
  {
    if k == |qs| {
      assert s[SegmentStart(qs, k)..] == s[SegmentStart(qs, k)..|s|];
    } else {
      assert (st.pieces + [st.current])[k] == st.pieces[k];
    }
  }

  /** The scanner's state after one more character. */
  lemma ScanStep(line: string, i: nat)
    requires i < |line|
    ensures Scan(line[..i + 1]) == Step(Scan(line[..i]), line[i])
  {
    assert line[..i + 1][..i] == line[..i];
  }

  lemma TrimAllAppend(xs: seq<string>, x: string)
    ensures TrimAll(xs + [x]) == TrimAll(xs) + [Trim(x)]
  {
  }

  /** The imperative splitter: a loop over the characters that updates the
      quote flag, the field being collected and the list of fields. */
  method ParseCsvLine(line: string) returns (fields: seq<string>)
    ensures fields == SplitLine(line) && fields == Fields(line)
    ensures |fields| == SeparatorCount(line) + 1
    ensures forall k :: 0 <= k < |fields| ==> IsTrimmed(fields[k]) && '"' !in fields[k]
  {
    var result: seq<string> := [];
    var sb: string := [];
    var inQuotes := false;
    for i := 0 to |line|
      invariant result == TrimAll(Scan(line[..i]).pieces)
      invariant sb == Scan(line[..i]).current
      invariant inQuotes == Scan(line[..i]).inQuotes
    {
      var c := line[i];
      ScanStep(line, i);
      if c == '"' {
        inQuotes := !inQuotes;
      } else if IsSeparator(c) && !inQuotes {
        TrimAllAppend(Scan(line[..i]).pieces, sb);
        result := result + [Trim(sb)];
        sb := [];
      } else {
        sb := sb + [c];
      }
    }
    assert line[..|line|] == line;
    TrimAllAppend(Scan(line).pieces, sb);
    fields := result + [Trim(sb)];
    SplitLineShape(line);
    SplitLineContents(line);
  }
}
