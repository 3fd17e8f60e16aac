/** Cutting and joining text at a separator. */
module Text {
  /** The text before and after the first c. */
  function Cut(s: string, c: char): (r: (string, string))
    requires c in s
    ensures s == r.0 + [c] + r.1 && c !in r.0 && |r.1| < |s|
  {
    if s[0] == c then ("", s[1..]) else var r := Cut(s[1..], c); ([s[0]] + r.0, r.1)
  }

  /** s cut at every c; joining the parts with c gives s back. */
  function Split(s: string, c: char): (parts: seq<string>)
    ensures |parts| > 0 && Join(parts, c) == s
    ensures forall k | 0 <= k < |parts| :: c !in parts[k]
    ensures parts[0] <= s
    decreases |s|
  {
    if c in s then var r := Cut(s, c); [r.0] + Split(r.1, c) else [s]
  }

  function Join(parts: seq<string>, c: char): string
    requires |parts| > 0
  {
    if |parts| == 1 then parts[0] else parts[0] + [c] + Join(parts[1..], c)
  }

  /** Parts without the separator survive joining and splitting. */
  lemma {:induction false} SplitJoin(parts: seq<string>, c: char)
    requires |parts| > 0 && forall k | 0 <= k < |parts| :: c !in parts[k]
    ensures Split(Join(parts, c), c) == parts
    decreases |parts|
  {
    if |parts| > 1 {
      var rest := Join(parts[1..], c);
      var whole := parts[0] + [c] + rest;
      assert whole[|parts[0]|] == c;
      CutAt(parts[0], rest, c);
      SplitJoin(parts[1..], c);
    }
  }

  lemma {:induction false} CutAt(s: string, t: string, c: char)
    requires c !in s
    ensures c in s + [c] + t && Cut(s + [c] + t, c) == (s, t)
    decreases |s|
  {
    var whole := s + [c] + t;
    assert whole[|s|] == c;
    if s == "" {
      assert whole[1..] == t;
    } else {
      assert whole[0] == s[0] && s[0] in s;
      assert whole[1..] == s[1..] + [c] + t;
      CutAt(s[1..], t, c);
      assert [s[0]] + s[1..] == s;
    }
  }
}
