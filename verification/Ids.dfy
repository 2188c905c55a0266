/** Identifiers and the sequence vocabulary shared by the other modules. */
module Ids {

  /** A UUID or any other opaque name: only equality and freshness matter. */
  datatype Id = Id(serial: nat)

  datatype Option<+T> = None | Some(value: T)

  ghost predicate Distinct<T(!new)>(s: seq<T>) {
    forall i, j :: 0 <= i < j < |s| ==> s[i] != s[j]
  }

  function Max(a: int, b: int): int {
    if a < b then b else a
  }

  function Min(a: int, b: int): int {
    if a < b then a else b
  }

  /** There is always another identifier. */
  lemma {:induction false} FreshId(taken: set<Id>) returns (id: Id)
    ensures id !in taken && forall t :: t in taken ==> t.serial < id.serial
    decreases |taken|
  {
    id := Id(0);
    if taken != {} {
      var t :| t in taken;
      var other := FreshId(taken - {t});
      id := Id(Max(other.serial, t.serial + 1));
    }
  }

  /** uuid.Generate: some identifier outside the ones in use. */
  method Generate(taken: set<Id>) returns (id: Id)
    ensures id !in taken
  {
    var bound: nat, todo := 0, taken;
    while todo != {}
      invariant todo <= taken
      invariant forall t :: t in taken && t !in todo ==> t.serial < bound
    {
      var t :| t in todo;
      todo := todo - {t};
      if bound <= t.serial {
        bound := t.serial + 1;
      }
    }
    id := Id(bound);
  }
}
