/** `String.prototype.toLowerCase` and `String.prototype.includes`. */
module JsText {

  /** Lower-cases the ASCII letters; other characters are kept as they are. */
  function LowerChar(c: char): char {
    if 'A' <= c <= 'Z' then (c as int + 32) as char else c
  }

  /** `toLowerCase`: same length, capitals mapped to their small letters, nothing else changed. */
  function ToLower(s: string): (r: string)
    ensures |r| == |s|
    ensures forall i :: 0 <= i < |s| && 'A' <= s[i] <= 'Z' ==> r[i] as int == s[i] as int + 32
    ensures forall i :: 0 <= i < |s| && !('A' <= s[i] <= 'Z') ==> r[i] == s[i]
    ensures forall i :: 0 <= i < |r| ==> !('A' <= r[i] <= 'Z')
  {
    seq(|s|, i requires 0 <= i < |s| => LowerChar(s[i]))
  }

  /** Lower-casing twice is lower-casing once. */
  lemma ToLowerIdempotent(s: string)
    ensures ToLower(ToLower(s)) == ToLower(s)
  {
  }

  /** `q` is found in `s` starting at index `i`. */
  ghost predicate OccursAt(s: string, q: string, i: int) {
    0 <= i && i + |q| <= |s| && s[i..i + |q|] == q
  }

  /** `s.includes(q)`: the search tries each start index in turn. */
  predicate Includes(s: string, q: string): (b: bool)
    ensures q == [] ==> b
    ensures b ==> |q| <= |s|
    ensures |q| <= |s| && s[..|q|] == q ==> b
    decreases |s|
  {
    |q| <= |s| && (s[..|q|] == q || Includes(s[1..], q))
  }

  /** `s.includes(q)` holds exactly when `q` occurs in `s` at some index. */
  lemma {:induction false} IncludesIff(s: string, q: string)
    ensures Includes(s, q) <==> exists i :: OccursAt(s, q, i)
    decreases |s|
  {
    if |q| > |s| {
      assert forall i :: !OccursAt(s, q, i);
    } else if s[..|q|] == q {
      assert OccursAt(s, q, 0);
    } else {
      IncludesIff(s[1..], q);
      forall i | OccursAt(s[1..], q, i)
        ensures OccursAt(s, q, i + 1)
      {
        assert s[1..][i..i + |q|] == s[i + 1..i + 1 + |q|];
      }
      forall i | OccursAt(s, q, i)
        ensures OccursAt(s[1..], q, i - 1)
      {
        assert i != 0;
        assert s[1..][i - 1..i - 1 + |q|] == s[i..i + |q|];
      }
    }
  }

  /** Every string includes the empty string. */
  lemma IncludesEmpty(s: string)
    ensures Includes(s, "")
  {
  }
}
