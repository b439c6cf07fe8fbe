/** HTTP vocabulary shared by the gateway client and the backend: the
    request method and the `/`-separated segments of a request path. */
module Http {

  datatype HttpMethod = GET | POST

  /** The characters of `s` before its first `/`. */
  function SegmentLength(s: string): (n: nat)
    ensures n <= |s| && '/' !in s[..n]
    ensures n < |s| ==> s[n] == '/'
  {
    if s == [] || s[0] == '/' then 0
    else
      var n := 1 + SegmentLength(s[1..]);
      assert s[..n] == [s[0]] + s[1..][..n - 1];
      n
  }

  /** The path that puts `/` in front of each segment. */
  function Join(segments: seq<string>): (p: string)
    ensures p == [] || p[0] == '/'
  {
    if segments == [] then "" else "/" + segments[0] + Join(segments[1..])
  }

  /** The segments of a path that is empty or starts with `/`: the pieces
      between consecutive slashes, the last one running to the end. */
  function Segments(p: string): (r: seq<string>)
    requires p == [] || p[0] == '/'
    ensures forall i :: 0 <= i < |r| ==> '/' !in r[i]
    decreases |p|
  {
    if p == [] then []
    else
      var rest := p[1..];
      var n := SegmentLength(rest);
      [rest[..n]] + Segments(rest[n..])
  }

  /** Splitting a joined path gives back its segments, as long as none
      of them contains a `/`. */
  lemma {:induction false} SegmentsOfJoin(segments: seq<string>)
    requires forall i :: 0 <= i < |segments| ==> '/' !in segments[i]
    ensures Segments(Join(segments)) == segments
  {
    if segments != [] {
      var s0 := segments[0];
      var tail := Join(segments[1..]);
      var rest := s0 + tail;
      assert Join(segments)[1..] == rest;
      SegmentLengthOf(s0, tail);
      assert rest[..|s0|] == s0 && rest[|s0|..] == tail;
      SegmentsOfJoin(segments[1..]);
    }
  }

  /** A segment followed by nothing or by `/` is read to its end. */
  lemma {:induction false} SegmentLengthOf(s: string, tail: string)
    requires '/' !in s
    requires tail == [] || tail[0] == '/'
    ensures SegmentLength(s + tail) == |s|
  {
    if s != [] {
      assert (s + tail)[1..] == s[1..] + tail;
      assert s[0] in s;
      assert forall c :: c in s[1..] ==> c in s;
      SegmentLengthOf(s[1..], tail);
    }
  }
}
