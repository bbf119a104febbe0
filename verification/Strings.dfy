/** Text that is put together with a mark and taken apart again. */
module Strings {
  /** Where neither front holds the mark, the two fronts are the same, and so is what follows. */
  lemma FirstMark(a: string, b: string, mark: char, x: string, y: string)
    requires mark !in a && mark !in b && a + [mark] + x == b + [mark] + y
    ensures a == b && x == y
  {
    var s, t := a + [mark] + x, b + [mark] + y;
    assert s[|a|] == mark && t[|b|] == mark && |a| == |b|;
    assert s[..|a|] == a && t[..|b|] == b && s[|a| + 1..] == x && t[|b| + 1..] == y;
  }
}
