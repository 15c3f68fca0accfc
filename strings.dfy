/** The string operations the pages use: lower-casing, `includes` and `replace`. */
module Strings {

  /** `toLowerCase` on one character, restricted to ASCII letters. */
  function LowerChar(c: char): char {
    if 'A' <= c <= 'Z' then (c as int + 32) as char else c
  }

  function Lower(s: string): (r: string)
    ensures |r| == |s|
    ensures forall i :: 0 <= i < |s| ==> r[i] == LowerChar(s[i])
  {
    seq(|s|, i requires 0 <= i < |s| => LowerChar(s[i]))
  }

  /** `s` holds `sub` at offset `i`. */
  predicate OccursAt(s: string, sub: string, i: int) {
    0 <= i && i + |sub| <= |s| && s[i..i + |sub|] == sub
  }

  /** `s.includes(sub)`: some offset holds `sub`; the empty string is included everywhere. */
  predicate Includes(s: string, sub: string)
    ensures Includes(s, sub) <==> exists i :: OccursAt(s, sub, i)
  {
    if sub <= s then
      assert OccursAt(s, sub, 0);
      true
    else if |s| == 0 then
      assert forall i :: !OccursAt(s, sub, i);
      false
    else
      assert forall i :: OccursAt(s[1..], sub, i) <==> OccursAt(s, sub, i + 1) by {
        forall i ensures OccursAt(s[1..], sub, i) <==> OccursAt(s, sub, i + 1) {
          if 0 <= i && i + |sub| <= |s| - 1 {
            assert s[1..][i..i + |sub|] == s[i + 1..i + 1 + |sub|];
          }
        }
      }
      assert !OccursAt(s, sub, 0);
      assert (exists i :: OccursAt(s, sub, i)) ==> exists i :: OccursAt(s[1..], sub, i) by {
        if exists i :: OccursAt(s, sub, i) {
          var i :| OccursAt(s, sub, i);
          assert OccursAt(s[1..], sub, i - 1);
        }
      }
      Includes(s[1..], sub)
  }

  /** Case-insensitive `includes`, as `a.toLowerCase().includes(b.toLowerCase())`. */
  predicate IncludesIgnoreCase(s: string, sub: string) {
    Includes(Lower(s), Lower(sub))
  }

  lemma EmptyIncluded(s: string)
    ensures Includes(s, "") && IncludesIgnoreCase(s, "")
  {
    assert OccursAt(s, "", 0);
    assert OccursAt(Lower(s), Lower(""), 0);
  }

  /** `s.replace(a, b)` with a one-character pattern: only the first occurrence is replaced. */
  function ReplaceFirst(s: string, a: char, b: char): (r: string)
    ensures |r| == |s|
    ensures a !in s ==> r == s
    ensures a in s ==> exists k :: 0 <= k < |s| && s[k] == a && a !in s[..k] && r == s[k := b]
  {
    if |s| == 0 then s
    else if s[0] == a then
      assert a !in s[..0];
      s[0 := b]
    else
      var t := ReplaceFirst(s[1..], a, b);
      assert s == [s[0]] + s[1..];
      if a in s[1..] then
        var k :| 0 <= k < |s[1..]| && s[1..][k] == a && a !in s[1..][..k] && t == s[1..][k := b];
        assert s[..k + 1] == [s[0]] + s[1..][..k];
        assert [s[0]] + t == s[k + 1 := b];
        [s[0]] + t
      else
        [s[0]] + t
  }
}
