/** The rule for errors reported by several threads: the first negative one is kept. */
module Errors {

  function FirstNegative(es: seq<int>): int {
    if es == [] then 0 else if es[0] < 0 then es[0] else FirstNegative(es[1..])
  }

  lemma {:induction false} FirstNegativeAppend(es: seq<int>, e: int)
    ensures FirstNegative(es + [e]) == if FirstNegative(es) != 0 then FirstNegative(es) else if e < 0 then e else 0
  {
    if es == [] {
    } else {
      assert (es + [e])[1..] == es[1..] + [e];
      FirstNegativeAppend(es[1..], e);
    }
  }
}
