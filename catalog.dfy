/**
  The difficulty catalog: a fixed map from a difficulty name to its profile, i.e. the
  time limit of a round in seconds, the operations questions may use and the inclusive
  range both operands are drawn from.
*/
module Catalog {

  datatype Operation = Multiplication | Division

  datatype Profile = Profile(timeLimit: int, operations: seq<Operation>, low: int, high: int)

  /** What every configured profile satisfies. */
  predicate WellFormed(p: Profile) {
    && p.timeLimit > 0
    && |p.operations| > 0
    && 1 <= p.low <= p.high
  }

  /** The three configured difficulties. */
  function Difficulties(): (m: map<string, Profile>)
    ensures m.Keys == {"easy", "medium", "hard"}
    ensures forall name :: name in m ==> WellFormed(m[name])
    ensures m["easy"].operations == [Multiplication]
    ensures forall name :: name in m && name != "easy" ==> Division in m[name].operations
  {
    map[
      "easy" := Profile(60, [Multiplication], 1, 10),
      "medium" := Profile(45, [Multiplication, Division], 1, 12),
      "hard" := Profile(30, [Multiplication, Division], 1, 20)
    ]
  }
}
