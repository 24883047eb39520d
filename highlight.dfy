/** Highlighting search matches in a line (`highlight_line_matches`,
    src/core/search.rs). The line's own escape sequences are set aside,
    every match of the query in what is left is wrapped in reverse video
    (SGR 7 and 27, ECMA-48 section 8.3.117), and the escapes are put back
    where they were, except those that fell inside a match. The two
    patterns involved are given: the line arrives already split into
    characters and escape sequences, and the query's matches arrive as
    positions in the stripped text. */
module Highlight {
  import opened Common

  const ESCAPE: char := '\U{1B}'

  /** `Attribute::Reverse` and `Attribute::NoReverse` as written out. */
  const INVERT: string := [ESCAPE] + "[7m"
  const NORMAL: string := [ESCAPE] + "[27m"

  /** A line as the escape pattern splits it: a character of text, or one
      escape sequence. */
  datatype Piece = Ch(c: char) | Escape(code: string)

  function PieceText(p: Piece): string
  {
    match p
    case Ch(c) => [c]
    case Escape(code) => code
  }

  /** The line itself. */
  function Render(line: seq<Piece>): string
  {
    if line == [] then [] else Render(line[..|line| - 1]) + PieceText(line[|line| - 1])
  }

  /** The line with its escapes removed. */
  function Stripped(line: seq<Piece>): string
  {
    if line == [] then []
    else
      var last := line[|line| - 1];
      Stripped(line[..|line| - 1]) + (if last.Ch? then [last.c] else [])
  }

  /** The total length of the line's escapes. */
  function EscapeWidth(line: seq<Piece>): (w: nat)
    ensures |Render(line)| == |Stripped(line)| + w
  {
    if line == [] then 0
    else
      var last := line[|line| - 1];
      EscapeWidth(line[..|line| - 1]) + (if last.Escape? then |last.code| else 0)
  }

  /** An escape sequence and the position in the stripped text where it
      stood. */
  datatype EscAt = EscAt(pos: nat, code: string)

  /** Each escape of the line with the number of text characters before
      it. */
  function Escapes(line: seq<Piece>): (r: seq<EscAt>)
    ensures forall k :: 0 <= k < |r| ==> r[k].pos <= |Stripped(line)|
    ensures forall i, j :: 0 <= i < j < |r| ==> r[i].pos <= r[j].pos
  {
    if line == [] then []
    else
      var pre, last := line[..|line| - 1], line[|line| - 1];
      Escapes(pre) + (if last.Escape? then [EscAt(|Stripped(pre)|, last.code)] else [])
  }

  /** The escape list of `highlight_line_matches`: the start of each
      escape in the line, less the length of the escapes before it. */
  method LocateEscapes(line: seq<Piece>) returns (escs: seq<EscAt>)
    ensures escs == Escapes(line)
  {
    escs := [];
    var offset, sumWidth := 0, 0;
    for i := 0 to |line|
      invariant escs == Escapes(line[..i])
      invariant offset == |Render(line[..i])|
      invariant sumWidth == EscapeWidth(line[..i])
    {
      assert line[..i + 1][..i] == line[..i];
      if line[i].Escape? {
        escs := escs + [EscAt(offset - sumWidth, line[i].code)];
        sumWidth := sumWidth + |line[i].code|;
      }
      offset := offset + |PieceText(line[i])|;
    }
    assert line[..|line|] == line;
  }

  /** A match of the query in the stripped text, as `[start, end)`. */
  datatype Match = Match(start: nat, end: nat)

  /** The matches `find_iter` gives: not empty, within the text, in order
      and not overlapping. */
  predicate Ordered(ms: seq<Match>, n: nat)
  {
    && (forall k :: 0 <= k < |ms| ==> ms[k].start < ms[k].end <= n)
    && (forall i, j :: 0 <= i < j < |ms| ==> ms[i].end <= ms[j].start)
  }

  /** `flat_map(|c| [c.start(), c.end()])`. */
  function Bounds(ms: seq<Match>): (r: seq<nat>)
    ensures |r| == 2 * |ms|
  {
    if ms == [] then [] else [ms[0].start, ms[0].end] + Bounds(ms[1..])
  }

  /** `iter().take_while(|m| *m <= p).count()`. */
  function TakeCount(bs: seq<nat>, p: nat): (r: nat)
    ensures r <= |bs|
    ensures forall k :: 0 <= k < r ==> bs[k] <= p
    ensures r < |bs| ==> bs[r] > p
  {
    if bs == [] || bs[0] > p then 0 else 1 + TakeCount(bs[1..], p)
  }

  // The reference rendering, built position by position.

  predicate StartsAt(ms: seq<Match>, i: nat)
  {
    ms != [] && (ms[0].start == i || StartsAt(ms[1..], i))
  }

  predicate EndsAt(ms: seq<Match>, i: nat)
  {
    ms != [] && (ms[0].end == i || EndsAt(ms[1..], i))
  }

  /** Whether position `i` is inside a match. */
  predicate Inside(ms: seq<Match>, i: nat)
  {
    ms != [] && (ms[0].start <= i < ms[0].end || Inside(ms[1..], i))
  }

  /** The escapes at position `i` that are put back, in their order: all
      of them unless `i` is inside a match. */
  function KeptAt(ms: seq<Match>, escs: seq<EscAt>, i: nat): string
  {
    if escs == [] then []
    else
      var last := escs[|escs| - 1];
      KeptAt(ms, escs[..|escs| - 1], i) + (if last.pos == i && !Inside(ms, i) then last.code else [])
  }

  /** Position `i` of the output: the switch back to normal where a match
      ends, the escapes kept there, the switch to reverse video where a
      match starts, then the character. */
  function Seg(st: string, ms: seq<Match>, escs: seq<EscAt>, i: nat): string
    requires i <= |st|
  {
    (if EndsAt(ms, i) then NORMAL else []) + KeptAt(ms, escs, i)
    + ((if StartsAt(ms, i) then INVERT else []) + (if i < |st| then [st[i]] else []))
  }

  /** Positions `a` to `b - 1`. */
  function Segs(st: string, ms: seq<Match>, escs: seq<EscAt>, a: nat, b: nat): string
    requires a <= b <= |st| + 1
    decreases b - a
  {
    if a == b then [] else Segs(st, ms, escs, a, b - 1) + Seg(st, ms, escs, b - 1)
  }

  /** The highlighted line: every position of the stripped text, and the
      one past its end. */
  function Expected(st: string, ms: seq<Match>, escs: seq<EscAt>): string
  {
    Segs(st, ms, escs, 0, |st| + 1)
  }

  lemma {:induction false} SegsSplit(st: string, ms: seq<Match>, escs: seq<EscAt>, a: nat, m: nat, b: nat)
    requires a <= m <= b <= |st| + 1
    ensures Segs(st, ms, escs, a, b) == Segs(st, ms, escs, a, m) + Segs(st, ms, escs, m, b)
    decreases b - m
  {
    if m == b {
      assert Segs(st, ms, escs, a, m) + [] == Segs(st, ms, escs, a, m);
    } else {
      SegsSplit(st, ms, escs, a, m, b - 1);
    }
  }

  /** Positions whose kept escapes agree render alike. */
  lemma {:induction false} SegsAgree(st: string, ms: seq<Match>, e1: seq<EscAt>, e2: seq<EscAt>, a: nat, b: nat)
    requires a <= b <= |st| + 1
    requires forall i :: a <= i < b ==> KeptAt(ms, e1, i) == KeptAt(ms, e2, i)
    ensures Segs(st, ms, e1, a, b) == Segs(st, ms, e2, a, b)
    decreases b - a
  {
    if a < b {
      SegsAgree(st, ms, e1, e2, a, b - 1);
      assert Seg(st, ms, e1, b - 1) == Seg(st, ms, e2, b - 1) by {
        assert KeptAt(ms, e1, b - 1) == KeptAt(ms, e2, b - 1);
      }
    }
  }

  // Counting what comes before a position.

  function CountStarts(ms: seq<Match>, a: nat, b: nat): nat
    requires a <= b
    decreases b - a
  {
    if a == b then 0 else CountStarts(ms, a, b - 1) + (if StartsAt(ms, b - 1) then 1 else 0)
  }

  function CountEnds(ms: seq<Match>, a: nat, b: nat): nat
    requires a <= b
    decreases b - a
  {
    if a == b then 0 else CountEnds(ms, a, b - 1) + (if EndsAt(ms, b - 1) then 1 else 0)
  }

  function KeptLen(ms: seq<Match>, escs: seq<EscAt>, a: nat, b: nat): nat
    requires a <= b
    decreases b - a
  {
    if a == b then 0 else KeptLen(ms, escs, a, b - 1) + |KeptAt(ms, escs, b - 1)|
  }

  /** The length of the output before position `b`, within the text. */
  lemma {:induction false} SegsWidth(st: string, ms: seq<Match>, escs: seq<EscAt>, a: nat, b: nat)
    requires a <= b <= |st|
    ensures |Segs(st, ms, escs, a, b)|
            == (b - a) + |INVERT| * CountStarts(ms, a, b) + |NORMAL| * CountEnds(ms, a, b) + KeptLen(ms, escs, a, b)
    decreases b - a
  {
    if a < b {
      SegsWidth(st, ms, escs, a, b - 1);
    }
  }

  /** Nothing in matches that all start at or after `lo` is below it. */
  lemma {:induction false} NoBoundaryBelow(ms: seq<Match>, lo: nat, i: nat)
    requires forall k :: 0 <= k < |ms| ==> lo <= ms[k].start < ms[k].end
    requires i < lo
    ensures !StartsAt(ms, i) && !EndsAt(ms, i) && !Inside(ms, i)
    decreases |ms|
  {
    if ms != [] {
      NoBoundaryBelow(ms[1..], lo, i);
    }
  }

  lemma NoBoundaryBeforeRest(ms: seq<Match>, n: nat, i: nat)
    requires Ordered(ms, n) && ms != [] && i < ms[0].end
    ensures !StartsAt(ms[1..], i) && !EndsAt(ms[1..], i) && !Inside(ms[1..], i)
  {
    NoBoundaryBelow(ms[1..], ms[0].end, i);
  }

  /** The number of matches starting before `p`. */
  function StartsBefore(ms: seq<Match>, p: nat): nat
  {
    if ms == [] then 0 else (if ms[0].start < p then 1 else 0) + StartsBefore(ms[1..], p)
  }

  /** The number of matches ending at or before `p`. */
  function EndsUpTo(ms: seq<Match>, p: nat): nat
  {
    if ms == [] then 0 else (if ms[0].end <= p then 1 else 0) + EndsUpTo(ms[1..], p)
  }

  lemma {:induction false} CountNone(a: nat, b: nat)
    requires a <= b
    ensures CountStarts([], a, b) == 0 && CountEnds([], a, b) == 0
    decreases b - a
  {
    if a < b {
      CountNone(a, b - 1);
    }
  }

  lemma {:induction false} EndsAfter(ms: seq<Match>, lo: nat, i: nat)
    requires forall k :: 0 <= k < |ms| ==> lo <= ms[k].start < ms[k].end
    requires EndsAt(ms, i)
    ensures i > lo
    decreases |ms|
  {
    if ms[0].end != i {
      EndsAfter(ms[1..], lo, i);
    }
  }

  /** Position `i` is a start or an end of the first match, or of a later
      one, never both. */
  lemma FirstOrRest(ms: seq<Match>, n: nat, i: nat)
    requires Ordered(ms, n) && ms != []
    ensures StartsAt(ms, i) == (ms[0].start == i || StartsAt(ms[1..], i))
    ensures !(ms[0].start == i && StartsAt(ms[1..], i))
    ensures EndsAt(ms, i) == (ms[0].end == i || EndsAt(ms[1..], i))
    ensures !(ms[0].end == i && EndsAt(ms[1..], i))
  {
    if i < ms[0].end {
      NoBoundaryBeforeRest(ms, n, i);
    } else if EndsAt(ms[1..], i) {
      EndsAfter(ms[1..], ms[0].end, i);
    }
  }

  lemma {:induction false} CountFirst(ms: seq<Match>, n: nat, a: nat, b: nat)
    requires Ordered(ms, n) && ms != [] && a <= b
    ensures CountStarts(ms, a, b) == (if a <= ms[0].start < b then 1 else 0) + CountStarts(ms[1..], a, b)
    ensures CountEnds(ms, a, b) == (if a <= ms[0].end < b then 1 else 0) + CountEnds(ms[1..], a, b)
    decreases b - a
  {
    if a < b {
      CountFirst(ms, n, a, b - 1);
      FirstOrRest(ms, n, b - 1);
    }
  }

  /** Counting positions is counting matches. */
  lemma {:induction false} CountsAreMatches(ms: seq<Match>, n: nat, p: nat)
    requires Ordered(ms, n)
    ensures CountStarts(ms, 0, p) == StartsBefore(ms, p)
    ensures CountEnds(ms, 0, p + 1) == EndsUpTo(ms, p)
    decreases |ms|
  {
    if ms == [] {
      CountNone(0, p);
      CountNone(0, p + 1);
    } else {
      CountFirst(ms, n, 0, p);
      CountFirst(ms, n, 0, p + 1);
      CountsAreMatches(ms[1..], n, p);
    }
  }

  /** The count of bounds up to `p` is odd exactly inside a match, and
      otherwise counts one start and one end for each match before `p`. */
  lemma {:induction false} BoundsCount(ms: seq<Match>, n: nat, p: nat)
    requires Ordered(ms, n)
    ensures TakeCount(Bounds(ms), p) % 2 == 1 <==> Inside(ms, p)
    ensures !Inside(ms, p) ==>
              && StartsBefore(ms, p) == EndsUpTo(ms, p)
              && TakeCount(Bounds(ms), p) == StartsBefore(ms, p) + EndsUpTo(ms, p)
    decreases |ms|
  {
    if ms != [] {
      var c, c' := TakeCount(Bounds(ms), p), TakeCount(Bounds(ms[1..]), p);
      if ms[0].start > p {
        assert c == 0 && !Inside(ms, p) && StartsBefore(ms, p) == 0 && EndsUpTo(ms, p) == 0 by {
          BoundsFirst(ms, n, p);
          NoBoundaryBeforeRest(ms, n, p);
          BoundsCount(ms[1..], n, p);
        }
      } else if p < ms[0].end {
        assert c == 1 && Inside(ms, p) by {
          BoundsFirst(ms, n, p);
        }
      } else {
        assert c == c' + 2 && Inside(ms, p) == Inside(ms[1..], p) by {
          BoundsFirst(ms, n, p);
        }
        assert StartsBefore(ms, p) == 1 + StartsBefore(ms[1..], p);
        assert EndsUpTo(ms, p) == 1 + EndsUpTo(ms[1..], p);
        BoundsCount(ms[1..], n, p);
        ParityPlusTwo(c');
      }
    }
  }

  lemma ParityPlusTwo(x: nat)
    ensures (x + 2) % 2 == x % 2
  {
  }

  /** How the count of bounds up to `p` follows the first match. */
  lemma BoundsFirst(ms: seq<Match>, n: nat, p: nat)
    requires Ordered(ms, n) && ms != []
    ensures var c, c' := TakeCount(Bounds(ms), p), TakeCount(Bounds(ms[1..]), p);
            && (ms[0].start > p ==> c == 0 && c' == 0)
            && (ms[0].start <= p < ms[0].end ==> c == 1)
            && (ms[0].end <= p ==> c == 2 + c')
  {
    var bs, rest := Bounds(ms), Bounds(ms[1..]);
    assert bs == [ms[0].start, ms[0].end] + rest;
    assert bs[1..] == [ms[0].end] + rest;
    assert bs[1..][1..] == rest;
    assert rest != [] ==> rest[0] == ms[1].start;
  }

  // The kept escapes and their lengths.

  /** The total length of the escapes of `escs` that are put back. */
  function InsertedLen(ms: seq<Match>, escs: seq<EscAt>): nat
  {
    if escs == [] then 0
    else
      var last := escs[|escs| - 1];
      InsertedLen(ms, escs[..|escs| - 1]) + (if !Inside(ms, last.pos) then |last.code| else 0)
  }

  lemma KeptAtSnoc(ms: seq<Match>, escs: seq<EscAt>, e: EscAt, i: nat)
    ensures KeptAt(ms, escs + [e], i) == KeptAt(ms, escs, i) + (if e.pos == i && !Inside(ms, i) then e.code else [])
  {
    assert (escs + [e])[..|escs|] == escs;
  }

  lemma {:induction false} KeptLenSnoc(ms: seq<Match>, escs: seq<EscAt>, e: EscAt, a: nat, b: nat)
    requires a <= b
    ensures KeptLen(ms, escs + [e], a, b)
            == KeptLen(ms, escs, a, b) + (if a <= e.pos < b && !Inside(ms, e.pos) then |e.code| else 0)
    decreases b - a
  {
    if a < b {
      KeptLenSnoc(ms, escs, e, a, b - 1);
      KeptAtSnoc(ms, escs, e, b - 1);
    }
  }

  lemma {:induction false} KeptLenEmpty(ms: seq<Match>, a: nat, b: nat)
    requires a <= b
    ensures KeptLen(ms, [], a, b) == 0
    decreases b - a
  {
    if a < b {
      KeptLenEmpty(ms, a, b - 1);
    }
  }

  lemma {:induction false} KeptLenAll(ms: seq<Match>, escs: seq<EscAt>, b: nat)
    requires forall k :: 0 <= k < |escs| ==> escs[k].pos < b
    ensures KeptLen(ms, escs, 0, b) == InsertedLen(ms, escs)
    decreases |escs|
  {
    if escs == [] {
      KeptLenEmpty(ms, 0, b);
    } else {
      var pre, last := escs[..|escs| - 1], escs[|escs| - 1];
      KeptLenAll(ms, pre, b);
      assert pre + [last] == escs;
      KeptLenSnoc(ms, pre, last, 0, b);
    }
  }

  // Putting one escape back.

  /** An escape inside a match changes nothing. */
  lemma DroppedInside(st: string, ms: seq<Match>, escs: seq<EscAt>, e: EscAt)
    requires Inside(ms, e.pos)
    ensures Expected(st, ms, escs + [e]) == Expected(st, ms, escs)
  {
    forall i | 0 <= i < |st| + 1
      ensures KeptAt(ms, escs + [e], i) == KeptAt(ms, escs, i)
    {
      KeptAtSnoc(ms, escs, e, i);
      assert KeptAt(ms, escs, i) + [] == KeptAt(ms, escs, i);
    }
    SegsAgree(st, ms, escs + [e], escs, 0, |st| + 1);
  }

  /** The output split around position `p`. */
  lemma SegsAround(st: string, ms: seq<Match>, es: seq<EscAt>, p: nat)
    requires p <= |st|
    ensures Expected(st, ms, es)
            == Segs(st, ms, es, 0, p) + Seg(st, ms, es, p) + Segs(st, ms, es, p + 1, |st| + 1)
  {
    var n := |st|;
    SegsSplit(st, ms, es, 0, p, n + 1);
    SegsSplit(st, ms, es, p, p + 1, n + 1);
    SegsOne(st, ms, es, p);
    Assoc(Segs(st, ms, es, 0, p), Seg(st, ms, es, p), Segs(st, ms, es, p + 1, n + 1));
  }

  /** Adding an escape at `p` leaves every other position alone. */
  lemma AwayFromKept(st: string, ms: seq<Match>, escs: seq<EscAt>, e: EscAt)
    requires e.pos <= |st|
    ensures Segs(st, ms, escs + [e], 0, e.pos) == Segs(st, ms, escs, 0, e.pos)
    ensures Segs(st, ms, escs + [e], e.pos + 1, |st| + 1) == Segs(st, ms, escs, e.pos + 1, |st| + 1)
  {
    forall i | 0 <= i < |st| + 1 && i != e.pos
      ensures KeptAt(ms, escs + [e], i) == KeptAt(ms, escs, i)
    {
      KeptAtSnoc(ms, escs, e, i);
      assert KeptAt(ms, escs, i) + [] == KeptAt(ms, escs, i);
    }
    SegsAgree(st, ms, escs + [e], escs, 0, e.pos);
    SegsAgree(st, ms, escs + [e], escs, e.pos + 1, |st| + 1);
  }

  /** What the output holds before the escapes put back at `p`: the
      positions before it, the switch back to normal ending there, and the
      escapes kept there already. */
  function Before(st: string, ms: seq<Match>, escs: seq<EscAt>, p: nat): string
    requires p <= |st|
  {
    Segs(st, ms, escs, 0, p) + (if EndsAt(ms, p) then NORMAL else []) + KeptAt(ms, escs, p)
  }

  /** What follows them: the switch to reverse video starting at `p`, the
      character there and the positions after it. */
  function After(st: string, ms: seq<Match>, escs: seq<EscAt>, p: nat): string
    requires p <= |st|
  {
    ((if StartsAt(ms, p) then INVERT else []) + (if p < |st| then [st[p]] else []))
    + Segs(st, ms, escs, p + 1, |st| + 1)
  }

  lemma ExpectedAt(st: string, ms: seq<Match>, escs: seq<EscAt>, p: nat)
    requires p <= |st|
    ensures Expected(st, ms, escs) == Before(st, ms, escs, p) + After(st, ms, escs, p)
  {
    var end := if EndsAt(ms, p) then NORMAL else [];
    var tail := (if StartsAt(ms, p) then INVERT else []) + (if p < |st| then [st[p]] else []);
    var pre, post := Segs(st, ms, escs, 0, p), Segs(st, ms, escs, p + 1, |st| + 1);
    var kept := KeptAt(ms, escs, p);
    SegsAround(st, ms, escs, p);
    assert Seg(st, ms, escs, p) == end + kept + tail;
    Regroup(pre, end, kept, tail, post);
  }

  lemma Regroup(a: string, b: string, c: string, d: string, e: string)
    ensures a + (b + c + d) + e == a + b + c + (d + e)
  {
  }

  /** An escape outside every match goes right after what the output
      holds before its position and leaves the rest alone. */
  lemma KeptShape(st: string, ms: seq<Match>, escs: seq<EscAt>, e: EscAt)
    requires e.pos <= |st| && !Inside(ms, e.pos)
    ensures Expected(st, ms, escs + [e]) == Before(st, ms, escs, e.pos) + e.code + After(st, ms, escs, e.pos)
  {
    var p, es := e.pos, escs + [e];
    ExpectedAt(st, ms, es, p);
    assert Before(st, ms, es, p) == Before(st, ms, escs, p) + e.code by {
      AwayFromKept(st, ms, escs, e);
      KeptAtSnoc(ms, escs, e, p);
    }
    assert After(st, ms, es, p) == After(st, ms, escs, p) by {
      AwayFromKept(st, ms, escs, e);
    }
  }

  /** Where `highlight_line_matches` puts back an escape at `p` of the
      stripped text, when `inserted` characters of escapes went back
      before it: past every bound up to `p`, counted as half switches to
      reverse video and half switches back. */
  function InsertAt(ms: seq<Match>, p: nat, inserted: nat): nat
  {
    var c := TakeCount(Bounds(ms), p);
    p + inserted + (c / 2) * |INVERT| + (c - c / 2) * |NORMAL|
  }

  /** The position `highlight_line_matches` computes for an escape kept
      there is the length of what goes before it. */
  lemma KeptPosition(st: string, ms: seq<Match>, escs: seq<EscAt>, e: EscAt)
    requires Ordered(ms, |st|) && e.pos <= |st| && !Inside(ms, e.pos)
    requires forall k :: 0 <= k < |escs| ==> escs[k].pos <= e.pos
    ensures InsertAt(ms, e.pos, InsertedLen(ms, escs)) == |Before(st, ms, escs, e.pos)|
  {
    var p, n := e.pos, |st|;
    SegsWidth(st, ms, escs, 0, p);
    CountsAreMatches(ms, n, p);
    BoundsCount(ms, n, p);
    KeptLenAll(ms, escs, p + 1);
  }

  /** Putting back an escape outside every match inserts it at the
      position `highlight_line_matches` computes. */
  lemma InsertKept(st: string, ms: seq<Match>, escs: seq<EscAt>, e: EscAt)
    requires Ordered(ms, |st|) && e.pos <= |st| && !Inside(ms, e.pos)
    requires forall k :: 0 <= k < |escs| ==> escs[k].pos <= e.pos
    ensures var pos := InsertAt(ms, e.pos, InsertedLen(ms, escs));
            var old_ := Expected(st, ms, escs);
            pos <= |old_| && Expected(st, ms, escs + [e]) == old_[..pos] + e.code + old_[pos..]
  {
    var b, a := Before(st, ms, escs, e.pos), After(st, ms, escs, e.pos);
    ExpectedAt(st, ms, escs, e.pos);
    KeptShape(st, ms, escs, e);
    KeptPosition(st, ms, escs, e);
    assert (b + a)[..|b|] == b && (b + a)[|b|..] == a;
  }

  /** `InsertKept` for the escape after a prefix of a line's escapes. */
  lemma KeptStep(st: string, ms: seq<Match>, escs: seq<EscAt>, j: nat)
    requires Ordered(ms, |st|) && j < |escs| && escs[j].pos <= |st| && !Inside(ms, escs[j].pos)
    requires forall i, k :: 0 <= i < k < |escs| ==> escs[i].pos <= escs[k].pos
    ensures var e := escs[j];
            var pos := InsertAt(ms, e.pos, InsertedLen(ms, escs[..j]));
            var old_ := Expected(st, ms, escs[..j]);
            && pos <= |old_|
            && Expected(st, ms, escs[..j + 1]) == old_[..pos] + e.code + old_[pos..]
            && InsertedLen(ms, escs[..j + 1]) == InsertedLen(ms, escs[..j]) + |e.code|
  {
    var e := escs[j];
    assert escs[..j + 1] == escs[..j] + [e];
    assert escs[..j + 1][..j] == escs[..j];
    forall k | 0 <= k < j
      ensures escs[..j][k].pos <= e.pos
    {
      assert escs[..j][k] == escs[k];
    }
    InsertKept(st, ms, escs[..j], e);
  }

  /** `highlight_line_matches`: with no match, the line unchanged and
      `false`; otherwise the reference rendering of the matches and the
      line's escapes, and `true`. */
  method HighlightLine(line: seq<Piece>, ms: seq<Match>) returns (r: string, found: bool)
    requires Ordered(ms, |Stripped(line)|)
    ensures found <==> ms != []
    ensures !found ==> r == Render(line)
    ensures found ==> r == Expected(Stripped(line), ms, Escapes(line))
  {
    if ms == [] {
      return Render(line), false;
    }
    var escs := LocateEscapes(line);
    r := PutBack(Stripped(line), ms, escs);
    found := true;
  }

  /** The loop of `highlight_line_matches` over the escapes: starting from
      the text with the matches wrapped, each escape outside every match
      goes back where the counts of bounds and of escapes already put back
      say. */
  method PutBack(st: string, ms: seq<Match>, escs: seq<EscAt>) returns (inverted: string)
    requires Ordered(ms, |st|)
    requires forall k :: 0 <= k < |escs| ==> escs[k].pos <= |st|
    requires forall i, k :: 0 <= i < k < |escs| ==> escs[i].pos <= escs[k].pos
    ensures inverted == Expected(st, ms, escs)
  {
    var bounds := Bounds(ms);
    inverted := Expected(st, ms, []);
    var inserted := 0;
    for j := 0 to |escs|
      invariant inverted == Expected(st, ms, escs[..j])
      invariant inserted == InsertedLen(ms, escs[..j])
    {
      var e := escs[j];
      var count := TakeCount(bounds, e.pos);
      if count % 2 == 1 {
        assert Expected(st, ms, escs[..j + 1]) == inverted && InsertedLen(ms, escs[..j + 1]) == inserted by {
          BoundsCount(ms, |st|, e.pos);
          DroppedInside(st, ms, escs[..j], e);
          assert escs[..j + 1] == escs[..j] + [e];
        }
        continue;
      }
      var numInvert := count / 2;
      var numNormal := count - numInvert;
      var pos := e.pos + inserted + numInvert * |INVERT| + numNormal * |NORMAL|;
      assert pos <= |inverted| && Expected(st, ms, escs[..j + 1]) == inverted[..pos] + e.code + inverted[pos..]
             && InsertedLen(ms, escs[..j + 1]) == inserted + |e.code| by {
        BoundsCount(ms, |st|, e.pos);
        assert pos == InsertAt(ms, e.pos, inserted);
        KeptStep(st, ms, escs, j);
      }
      inverted := inverted[..pos] + e.code + inverted[pos..];
      inserted := inserted + |e.code|;
    }
    assert escs[..|escs|] == escs;
  }

  // What the reference rendering gives in the two simple cases.

  /** No escape stands at `i`: nothing is put back there. */
  lemma {:induction false} KeptAtNone(ms: seq<Match>, escs: seq<EscAt>, i: nat)
    requires forall k :: 0 <= k < |escs| ==> escs[k].pos != i
    ensures KeptAt(ms, escs, i) == []
    decreases |escs|
  {
    if escs != [] {
      var pre := escs[..|escs| - 1];
      assert forall k :: 0 <= k < |pre| ==> pre[k] == escs[k];
      KeptAtNone(ms, pre, i);
    }
  }

  /** Positions render alike in two texts that agree there. */
  lemma {:induction false} SegsSameText(st: string, st2: string, ms: seq<Match>, escs: seq<EscAt>, a: nat, b: nat)
    requires a <= b <= |st| && b <= |st2|
    requires forall i :: a <= i < b ==> st[i] == st2[i]
    ensures Segs(st, ms, escs, a, b) == Segs(st2, ms, escs, a, b)
    decreases b - a
  {
    if a < b {
      SegsSameText(st, st2, ms, escs, a, b - 1);
    }
  }

  /** With no match, the rendering ends with the escapes kept at the end
      of the text. */
  lemma NoMatchEnd(st: string, escs: seq<EscAt>)
    ensures Expected(st, [], escs) == Segs(st, [], escs, 0, |st|) + KeptAt([], escs, |st|)
  {
    assert Seg(st, [], escs, |st|) == [] + KeptAt([], escs, |st|) + ([] + []);
  }

  /** With no match, a character more in the text is a character more at
      the end of the rendering. */
  lemma NoMatchChar(st: string, escs: seq<EscAt>, c: char)
    requires forall k :: 0 <= k < |escs| ==> escs[k].pos <= |st|
    ensures Expected(st + [c], [], escs) == Expected(st, [], escs) + [c]
  {
    var st2, n := st + [c], |st|;
    NoMatchEnd(st, escs);
    assert Segs(st2, [], escs, 0, n) == Segs(st, [], escs, 0, n) by {
      SegsSameText(st, st2, [], escs, 0, n);
    }
    assert Seg(st2, [], escs, n) == KeptAt([], escs, n) + [c] by {
      assert [] + KeptAt([], escs, n) + ([] + [st2[n]]) == KeptAt([], escs, n) + [c];
    }
    assert Seg(st2, [], escs, n + 1) == [] by {
      KeptAtNone([], escs, n + 1);
    }
    assert Segs(st2, [], escs, 0, n + 1) == Segs(st2, [], escs, 0, n) + Seg(st2, [], escs, n);
    assert Expected(st2, [], escs) == Segs(st2, [], escs, 0, n + 1) + Seg(st2, [], escs, n + 1);
  }

  /** With no match, an escape more at the end of the text is that escape
      more at the end of the rendering. */
  lemma NoMatchEscape(st: string, escs: seq<EscAt>, code: string)
    ensures Expected(st, [], escs + [EscAt(|st|, code)]) == Expected(st, [], escs) + code
  {
    var n, e := |st|, EscAt(|st|, code);
    var escs2 := escs + [e];
    NoMatchEnd(st, escs);
    NoMatchEnd(st, escs2);
    assert Segs(st, [], escs2, 0, n) == Segs(st, [], escs, 0, n) by {
      forall i | 0 <= i < n
        ensures KeptAt([], escs2, i) == KeptAt([], escs, i)
      {
        KeptAtSnoc([], escs, e, i);
        assert KeptAt([], escs, i) + [] == KeptAt([], escs, i);
      }
      SegsAgree(st, [], escs2, escs, 0, n);
    }
    KeptAtSnoc([], escs, e, n);
  }

  /** With no match, the reference rendering puts every escape back where
      it stood: it is the line itself. */
  lemma {:induction false} NoMatchIsLine(line: seq<Piece>)
    ensures Expected(Stripped(line), [], Escapes(line)) == Render(line)
    decreases |line|
  {
    if line == [] {
      assert Segs([], [], [], 0, 1) == Seg([], [], [], 0);
    } else {
      var pre, last := line[..|line| - 1], line[|line| - 1];
      NoMatchIsLine(pre);
      assert Render(line) == Render(pre) + PieceText(last);
      if last.Ch? {
        assert Stripped(line) == Stripped(pre) + [last.c] && Escapes(line) == Escapes(pre);
        NoMatchChar(Stripped(pre), Escapes(pre), last.c);
      } else {
        assert Stripped(line) == Stripped(pre);
        assert Escapes(line) == Escapes(pre) + [EscAt(|Stripped(pre)|, last.code)];
        NoMatchEscape(Stripped(pre), Escapes(pre), last.code);
      }
    }
  }

  /** `replace_all` wrapping each match in reverse video, from position
      `a` of the text on. */
  function Wrapped(st: string, ms: seq<Match>, a: nat): string
    requires a <= |st| && Ordered(ms, |st|) && (ms != [] ==> a <= ms[0].start)
    decreases |ms|
  {
    if ms == [] then st[a..]
    else
      OrderedRest(ms, |st|);
      st[a..ms[0].start] + INVERT + st[ms[0].start..ms[0].end] + NORMAL + Wrapped(st, ms[1..], ms[0].end)
  }

  lemma OrderedRest(ms: seq<Match>, n: nat)
    requires Ordered(ms, n) && ms != []
    ensures Ordered(ms[1..], n)
    ensures ms[1..] != [] ==> ms[0].end <= ms[1].start
  {
  }

  /** Positions where no match starts or ends, with no escapes, are the
      text itself. */
  lemma {:induction false} SegsPlain(st: string, ms: seq<Match>, a: nat, b: nat)
    requires a <= b <= |st|
    requires forall i :: a <= i < b ==> !StartsAt(ms, i) && !EndsAt(ms, i)
    ensures Segs(st, ms, [], a, b) == st[a..b]
    decreases b - a
  {
    if a < b {
      SegsPlain(st, ms, a, b - 1);
      assert Seg(st, ms, [], b - 1) == [st[b - 1]];
      assert st[a..b - 1] + [st[b - 1]] == st[a..b];
    }
  }

  lemma SegsOne(st: string, ms: seq<Match>, escs: seq<EscAt>, i: nat)
    requires i < |st| + 1
    ensures Segs(st, ms, escs, i, i + 1) == Seg(st, ms, escs, i)
  {
    Unit(Seg(st, ms, escs, i));
  }

  lemma Unit(a: string)
    ensures [] + a == a && a + [] == a
  {
  }

  lemma ConsSlice(st: string, s: nat, e: nat)
    requires s < e <= |st|
    ensures st[s..e] == [st[s]] + st[s + 1..e]
  {
  }

  lemma Assoc(a: string, b: string, c: string)
    ensures a + b + c == a + (b + c)
  {
  }

  lemma Regroup4(a: string, b: string, c: string, d: string, e: string)
    ensures a + (b + c) + (d + e) == a + b + c + d + e
  {
  }

  /** Where the first match starts: the switch to reverse video and the
      character. */
  lemma FirstMatchStart(st: string, ms: seq<Match>)
    requires Ordered(ms, |st|) && ms != []
    ensures Seg(st, ms, [], ms[0].start) == INVERT + [st[ms[0].start]]
  {
    var s := ms[0].start;
    FirstOrRest(ms, |st|, s);
    NoBoundaryBeforeRest(ms, |st|, s);
    assert Seg(st, ms, [], s) == [] + [] + (INVERT + [st[s]]);
    Unit(INVERT + [st[s]]);
  }

  /** Inside the first match: its characters. */
  lemma FirstMatchInside(st: string, ms: seq<Match>)
    requires Ordered(ms, |st|) && ms != []
    ensures Segs(st, ms, [], ms[0].start + 1, ms[0].end) == st[ms[0].start + 1..ms[0].end]
  {
    forall i | ms[0].start + 1 <= i < ms[0].end
      ensures !StartsAt(ms, i) && !EndsAt(ms, i)
    {
      WithinFirst(ms, |st|, i);
    }
    SegsPlain(st, ms, ms[0].start + 1, ms[0].end);
  }

  lemma WithinFirst(ms: seq<Match>, n: nat, i: nat)
    requires Ordered(ms, n) && ms != [] && ms[0].start < i < ms[0].end
    ensures !StartsAt(ms, i) && !EndsAt(ms, i)
  {
    FirstOrRest(ms, n, i);
    NoBoundaryBeforeRest(ms, n, i);
  }

  /** Before the first match: the text. */
  lemma BeforeFirstMatch(st: string, ms: seq<Match>, a: nat)
    requires Ordered(ms, |st|) && ms != [] && a <= ms[0].start
    ensures Segs(st, ms, [], a, ms[0].start) == st[a..ms[0].start]
  {
    forall i | a <= i < ms[0].start
      ensures !StartsAt(ms, i) && !EndsAt(ms, i)
    {
      NoBoundaryBelow(ms, ms[0].start, i);
    }
    SegsPlain(st, ms, a, ms[0].start);
  }

  /** The positions of the first match: the switch to reverse video, then
      its text. */
  lemma FirstMatchSegs(st: string, ms: seq<Match>)
    requires Ordered(ms, |st|) && ms != []
    ensures Segs(st, ms, [], ms[0].start, ms[0].end) == INVERT + st[ms[0].start..ms[0].end]
  {
    var s, e := ms[0].start, ms[0].end;
    calc {
      Segs(st, ms, [], s, e);
    == { SegsSplit(st, ms, [], s, s + 1, e); }
      Segs(st, ms, [], s, s + 1) + Segs(st, ms, [], s + 1, e);
    == { SegsOne(st, ms, [], s); FirstMatchStart(st, ms); FirstMatchInside(st, ms); }
      INVERT + [st[s]] + st[s + 1..e];
    == { Assoc(INVERT, [st[s]], st[s + 1..e]); ConsSlice(st, s, e); }
      INVERT + st[s..e];
    }
  }

  /** Where the first match ends, the switch back to normal comes first. */
  lemma FirstMatchEndSeg(st: string, ms: seq<Match>)
    requires Ordered(ms, |st|) && ms != []
    ensures Seg(st, ms, [], ms[0].end) == NORMAL + Seg(st, ms[1..], [], ms[0].end)
  {
    var e, n := ms[0].end, |st|;
    FirstOrRest(ms, n, e);
    var tail := (if StartsAt(ms, e) then INVERT else []) + (if e < n then [st[e]] else []);
    assert Seg(st, ms, [], e) == NORMAL + [] + tail;
    assert Seg(st, ms[1..], [], e) == [] + [] + tail;
    Unit(NORMAL);
    Unit(tail);
  }

  /** Past the end of the first match, it plays no part. */
  lemma PastFirstMatch(st: string, ms: seq<Match>, i: nat)
    requires Ordered(ms, |st|) && ms != [] && ms[0].end < i <= |st|
    ensures Seg(st, ms, [], i) == Seg(st, ms[1..], [], i)
  {
    FirstOrRest(ms, |st|, i);
  }

  /** From the end of the first match on, the rendering is the switch back
      to normal followed by the rendering of the other matches. */
  lemma {:induction false} FirstMatchEnd(st: string, ms: seq<Match>, b: nat)
    requires Ordered(ms, |st|) && ms != [] && ms[0].end < b <= |st| + 1
    ensures Segs(st, ms, [], ms[0].end, b) == NORMAL + Segs(st, ms[1..], [], ms[0].end, b)
    decreases b
  {
    var e := ms[0].end;
    if b == e + 1 {
      SegsOne(st, ms, [], e);
      SegsOne(st, ms[1..], [], e);
      FirstMatchEndSeg(st, ms);
    } else {
      FirstMatchEnd(st, ms, b - 1);
      PastFirstMatch(st, ms, b - 1);
      Assoc(NORMAL, Segs(st, ms[1..], [], e, b - 1), Seg(st, ms[1..], [], b - 1));
    }
  }

  /** With neither matches nor escapes, the rendering from `a` on is the
      text from `a` on. */
  lemma WrappedNone(st: string, a: nat)
    requires a <= |st|
    ensures Segs(st, [], [], a, |st| + 1) == st[a..]
  {
    var n := |st|;
    calc {
      Segs(st, [], [], a, n + 1);
    == { SegsSplit(st, [], [], a, n, n + 1); }
      Segs(st, [], [], a, n) + Segs(st, [], [], n, n + 1);
    == { SegsOne(st, [], [], n); assert Seg(st, [], [], n) == [] + [] + ([] + []); SegsPlain(st, [], a, n); }
      st[a..n] + [];
    == { Unit(st[a..n]); }
      st[a..];
    }
  }

  /** With no escapes, the rendering from `a` on: the text up to the first
      match, the match wrapped, and the rendering of the other matches. */
  lemma FirstMatchWrapped(st: string, ms: seq<Match>, a: nat)
    requires Ordered(ms, |st|) && ms != [] && a <= ms[0].start
    ensures var s, e := ms[0].start, ms[0].end;
            Segs(st, ms, [], a, |st| + 1)
            == st[a..s] + (INVERT + st[s..e]) + (NORMAL + Segs(st, ms[1..], [], e, |st| + 1))
  {
    var n, s, e := |st|, ms[0].start, ms[0].end;
    SegsSplit(st, ms, [], a, s, n + 1);
    SegsSplit(st, ms, [], s, e, n + 1);
    BeforeFirstMatch(st, ms, a);
    FirstMatchSegs(st, ms);
    FirstMatchEnd(st, ms, n + 1);
  }

  /** One match more: the text before it, the match wrapped, and the rest. */
  lemma WrappedStep(st: string, ms: seq<Match>, a: nat)
    requires a <= |st| && Ordered(ms, |st|) && ms != [] && a <= ms[0].start
    requires Segs(st, ms[1..], [], ms[0].end, |st| + 1) == Wrapped(st, ms[1..], ms[0].end)
    ensures Segs(st, ms, [], a, |st| + 1) == Wrapped(st, ms, a)
  {
    var s, e := ms[0].start, ms[0].end;
    FirstMatchWrapped(st, ms, a);
    Regroup4(st[a..s], INVERT, st[s..e], NORMAL, Wrapped(st, ms[1..], e));
  }

  /** With no escapes, the rendering from `a` on is `replace_all`'s. */
  lemma {:induction false} WrappedFrom(st: string, ms: seq<Match>, a: nat)
    requires a <= |st| && Ordered(ms, |st|) && (ms != [] ==> a <= ms[0].start)
    ensures Segs(st, ms, [], a, |st| + 1) == Wrapped(st, ms, a)
    decreases |ms|
  {
    if ms == [] {
      WrappedNone(st, a);
    } else {
      OrderedRest(ms, |st|);
      WrappedFrom(st, ms[1..], ms[0].end);
      WrappedStep(st, ms, a);
    }
  }

  /** The text `highlight_line_matches` starts from, the stripped line
      with each match wrapped in reverse video, is the reference rendering
      without the escapes. */
  lemma WrappedIsExpected(st: string, ms: seq<Match>)
    requires Ordered(ms, |st|)
    ensures Expected(st, ms, []) == Wrapped(st, ms, 0)
  {
    WrappedFrom(st, ms, 0);
  }
}
