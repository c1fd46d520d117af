/** Dotted attribute paths. */
module AttributePath {
  import opened Values
  import opened Characters

  function Segment(text: string): seq<string> {
    if text == "" then [] else [text]
  }

  /** Segments between dots, empty ones dropped; `current` is the segment being collected. */
  function SplitFrom(path: string, current: string): seq<string> {
    if path == "" then Segment(current)
    else if path[0] == '.' then Segment(current) + SplitFrom(path[1..], "")
    else SplitFrom(path[1..], current + [path[0]])
  }

  function Split(path: string): seq<string> {
    SplitFrom(path, "")
  }

  function Join(parts: seq<string>): string {
    if parts == [] then "" else if |parts| == 1 then parts[0] else parts[0] + "." + Join(parts[1..])
  }

  predicate PlainSegment(part: string) {
    part != "" && '.' !in part
  }

  lemma {:induction false} CollectSegment(part: string, tail: string, current: string)
    requires '.' !in part
    ensures SplitFrom(part + tail, current) == SplitFrom(tail, current + part)
  {
    if part == "" {
      assert part + tail == tail && current + part == current;
    } else {
      assert (part + tail)[1..] == part[1..] + tail;
      assert (current + [part[0]]) + part[1..] == current + part;
      CollectSegment(part[1..], tail, current + [part[0]]);
    }
  }

  /** Joining plain segments and splitting again gives the segments back. */
  lemma {:induction false} SplitJoin(parts: seq<string>)
    requires forall i :: 0 <= i < |parts| ==> PlainSegment(parts[i])
    ensures Split(Join(parts)) == parts
  {
    if parts != [] {
      var part := parts[0];
      assert PlainSegment(part);
      if |parts| == 1 {
        CollectSegment(part, "", "");
        assert part + "" == part && "" + part == part;
      } else {
        var tail := "." + Join(parts[1..]);
        CollectSegment(part, tail, "");
        assert part + "." + Join(parts[1..]) == part + tail && "" + part == part;
        assert tail[1..] == Join(parts[1..]);
        SplitJoin(parts[1..]);
      }
    }
  }

  /** splitAttributePath: one pass with a start index. */
  method SplitAttributePath(path: string) returns (parts: seq<string>)
    ensures parts == Split(path)
  {
    parts := [];
    var start := 0;
    assert path[0..] == path && path[0..0] == "";
    for index := 0 to |path|
      invariant 0 <= start <= index
      invariant Split(path) == parts + SplitFrom(path[index..], path[start..index])
    {
      assert path[index..][1..] == path[index + 1..];
      assert path[start..index] + [path[index]] == path[start..index + 1];
      if path[index] == '.' {
        if path[start..index] != "" {
          parts := parts + [path[start..index]];
        }
        start := index + 1;
        assert path[start..index + 1] == "";
      }
    }
    assert path[|path|..] == "" && path[start..|path|] == path[start..];
    if path[start..] != "" {
      parts := parts + [path[start..]];
    }
  }

  predicate Blank(text: string) {
    forall i :: 0 <= i < |text| ==> IsSpace(text[i])
  }

  /** A JSON path must have segments, and none of them may be blank. */
  function JsonPath(path: string): Option<seq<string>> {
    var parts := Split(path);
    if parts == [] || exists i :: 0 <= i < |parts| && Blank(parts[i]) then None else Some(parts)
  }
}
