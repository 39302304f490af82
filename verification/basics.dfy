/** Small helpers shared by every part of the model: an optional value and the
    two string tests the C code uses (`strcmp(...) == 0` is plain equality,
    `strstr(s, sub) != NULL` is `Contains(s, sub)`). */
module Basics {

  datatype Option<+T> = None | Some(value: T)

  /** `p` is a prefix of `s`. */
  predicate IsPrefix(p: string, s: string) {
    |p| <= |s| && s[..|p|] == p
  }

  /** `strstr(s, sub) != NULL`: `sub` occurs somewhere in `s` (the empty string occurs everywhere). */
  predicate Contains(s: string, sub: string)
    decreases |s|
  {
    IsPrefix(sub, s) || (|s| > 0 && Contains(s[1..], sub))
  }

  /** `sub` starts at offset `k` of `s`. */
  predicate OccursAt(s: string, sub: string, k: int) {
    0 <= k <= |s| - |sub| && s[k..k + |sub|] == sub
  }

  /** `Contains` holds exactly when `sub` occurs at some offset of `s`. */
  lemma {:induction false} ContainsAt(s: string, sub: string)
    ensures Contains(s, sub) <==> exists k :: OccursAt(s, sub, k)
    decreases |s|
  {
    if IsPrefix(sub, s) {
      assert OccursAt(s, sub, 0);
    } else if |s| > 0 {
      ContainsAt(s[1..], sub);
      if Contains(s[1..], sub) {
        var k :| OccursAt(s[1..], sub, k);
        assert OccursAt(s, sub, k + 1);
      }
      if k :| OccursAt(s, sub, k) {
        assert k != 0;
        assert OccursAt(s[1..], sub, k - 1);
      }
    }
  }
}
