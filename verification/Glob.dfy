/**
 Segment-wise globbing (`matchSegments`, internal/engine/engine.go): an ordinary
 element takes one segment that the shell matcher accepts, "**" takes any block.
 The shell matcher (path.Match, with its errors read as "no") is a parameter.
 */
module Glob {

  type SegmentMatcher = (string, string) -> bool

  const ANY_SEGMENTS := "**"

  function MatchSegments(m: SegmentMatcher, pattern: seq<string>, segs: seq<string>): bool
    decreases |pattern|
  {
    if pattern == [] then segs == []
    else if pattern[0] == ANY_SEGMENTS then
      |pattern| == 1 || exists i | 0 <= i <= |segs| :: MatchSegments(m, pattern[1..], segs[i..])
    else
      segs != [] && m(pattern[0], segs[0]) && MatchSegments(m, pattern[1..], segs[1..])
  }

  function Concat(blocks: seq<seq<string>>): seq<string> {
    if blocks == [] then [] else blocks[0] + Concat(blocks[1..])
  }

  /** One block per pattern element: anything for "**", one accepted segment otherwise. */
  ghost predicate BlocksFit(m: SegmentMatcher, pattern: seq<string>, blocks: seq<seq<string>>) {
    |blocks| == |pattern| &&
    forall i | 0 <= i < |pattern| && pattern[i] != ANY_SEGMENTS :: |blocks[i]| == 1 && m(pattern[i], blocks[i][0])
  }

  /** A match is exactly a division of the segments into consecutive fitting blocks. */
  lemma {:induction false} MatchIsDivision(m: SegmentMatcher, pattern: seq<string>, segs: seq<string>)
    ensures MatchSegments(m, pattern, segs) <==>
            exists blocks :: BlocksFit(m, pattern, blocks) && Concat(blocks) == segs
  {
    if MatchSegments(m, pattern, segs) {
      var blocks := FindDivision(m, pattern, segs);
    }
    if blocks :| BlocksFit(m, pattern, blocks) && Concat(blocks) == segs {
      DivisionMatches(m, pattern, blocks);
    }
  }

  lemma {:induction false} FindDivision(m: SegmentMatcher, pattern: seq<string>, segs: seq<string>)
    returns (blocks: seq<seq<string>>)
    requires MatchSegments(m, pattern, segs)
    ensures BlocksFit(m, pattern, blocks) && Concat(blocks) == segs
    decreases |pattern|
  {
    if pattern == [] {
      blocks := [];
    } else if pattern == [ANY_SEGMENTS] {
      blocks := [segs];
      assert blocks[1..] == [];
    } else {
      var n: nat;
      if pattern[0] == ANY_SEGMENTS {
        n :| n <= |segs| && MatchSegments(m, pattern[1..], segs[n..]);
      } else {
        n := 1;
      }
      var rest := FindDivision(m, pattern[1..], segs[n..]);
      blocks := [segs[..n]] + rest;
      assert blocks[1..] == rest && segs[..n] + segs[n..] == segs;
      forall i | 0 <= i < |pattern| && pattern[i] != ANY_SEGMENTS
        ensures |blocks[i]| == 1 && m(pattern[i], blocks[i][0])
      {
        assert i > 0 ==> pattern[i] == pattern[1..][i - 1];
      }
    }
  }

  lemma {:induction false} DivisionMatches(m: SegmentMatcher, pattern: seq<string>, blocks: seq<seq<string>>)
    requires BlocksFit(m, pattern, blocks)
    ensures MatchSegments(m, pattern, Concat(blocks))
    decreases |pattern|
  {
    if pattern != [] {
      var segs, n := Concat(blocks), |blocks[0]|;
      forall i | 0 <= i < |pattern[1..]| && pattern[1..][i] != ANY_SEGMENTS
        ensures |blocks[1..][i]| == 1 && m(pattern[1..][i], blocks[1..][i][0])
      {
        assert pattern[1..][i] == pattern[i + 1];
      }
      DivisionMatches(m, pattern[1..], blocks[1..]);
      assert segs[n..] == Concat(blocks[1..]);
      assert pattern[0] != ANY_SEGMENTS ==> segs[0] == blocks[0][0];
    }
  }

  /** "**" directly repeated means the same as one. */
  lemma {:induction false} RepeatedAnyCollapses(m: SegmentMatcher, p: seq<string>, q: seq<string>, segs: seq<string>)
    ensures MatchSegments(m, p + [ANY_SEGMENTS, ANY_SEGMENTS] + q, segs) <==>
            MatchSegments(m, p + [ANY_SEGMENTS] + q, segs)
    decreases |p|
  {
    var two, one := p + [ANY_SEGMENTS, ANY_SEGMENTS] + q, p + [ANY_SEGMENTS] + q;
    if p == [] {
      assert two[1..] == one;
      assert segs[0..] == segs;
      forall i | 0 <= i <= |segs| ensures MatchSegments(m, one, segs[i..]) ==> MatchSegments(m, one, segs) {
        if |one| > 1 && MatchSegments(m, one, segs[i..]) {
          var k :| 0 <= k <= |segs[i..]| && MatchSegments(m, one[1..], segs[i..][k..]);
          assert segs[i..][k..] == segs[i + k..];
        }
      }
    } else {
      assert two[1..] == p[1..] + [ANY_SEGMENTS, ANY_SEGMENTS] + q;
      assert one[1..] == p[1..] + [ANY_SEGMENTS] + q;
      forall i | 0 <= i <= |segs|
        ensures MatchSegments(m, two[1..], segs[i..]) <==> MatchSegments(m, one[1..], segs[i..])
      {
        RepeatedAnyCollapses(m, p[1..], q, segs[i..]);
      }
    }
  }
}
