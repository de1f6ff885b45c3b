/** The largest value of a non-empty strength history, as the consumer's
    auto-scale reads it before appending a new sample. */
module History {

  /** The maximum of a non-empty sequence: an element of it that no element
      exceeds. */
  function Max(s: seq<int>): (m: int)
    requires |s| > 0
    ensures m in s
    ensures forall i :: 0 <= i < |s| ==> s[i] <= m
  {
    if |s| == 1 then s[0]
    else
      var rest := Max(s[..|s| - 1]);
      assert s == s[..|s| - 1] + [s[|s| - 1]];
      if s[|s| - 1] > rest then s[|s| - 1] else rest
  }

  /** Appending a value changes the maximum exactly when the value exceeds
      it, and then the value is the new maximum. */
  lemma MaxAppend(s: seq<int>, v: int)
    requires |s| > 0
    ensures Max(s + [v]) == if v > Max(s) then v else Max(s)
  {
    assert (s + [v])[..|s|] == s;
  }

  /** The maximum never shrinks as a history grows. */
  lemma MaxGrows(s: seq<int>, t: seq<int>)
    requires |s| > 0
    ensures Max(s) <= Max(s + t)
  {
    assert (s + t)[..|s|] == s;
    var i :| 0 <= i < |s| && s[i] == Max(s);
    assert (s + t)[i] == s[i];
  }
}
