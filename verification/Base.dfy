/** Small definitions shared by the component models. */
module Base {

  datatype Option<+T> = None | Some(value: T)

  function Max(a: int, b: int): int {
    if a >= b then a else b
  }

  function Min(a: int, b: int): int {
    if a <= b then a else b
  }

  /** The part of a task type before its first dot. */
  function Head(taskType: string): (h: string)
    ensures '.' !in h && h <= taskType
    ensures h == taskType || taskType[|h|] == '.'
  {
    if taskType == [] || taskType[0] == '.' then [] else [taskType[0]] + Head(taskType[1..])
  }

  /** No element occurs twice. */
  predicate Distinct<T(==)>(s: seq<T>) {
    forall i, j :: 0 <= i < j < |s| ==> s[i] != s[j]
  }

  /** The total of a weight over a finite set. */
  ghost function Sum<T(!new)>(keys: set<T>, weight: T -> nat): nat {
    if keys == {} then 0
    else
      var k :| k in keys;
      weight(k) + Sum(keys - {k}, weight)
  }

  /** Lowering weights pointwise lowers the total, strictly if one weight drops strictly. */
  lemma {:induction false} SumDrops<T(!new)>(keys: set<T>, before: T -> nat, after: T -> nat)
    requires forall k :: k in keys ==> after(k) <= before(k)
    ensures Sum(keys, after) <= Sum(keys, before)
    ensures (exists k :: k in keys && after(k) < before(k)) ==> Sum(keys, after) < Sum(keys, before)
  {
    if keys != {} {
      var k :| k in keys && Sum(keys, before) == before(k) + Sum(keys - {k}, before)
                         && Sum(keys, after) == after(k) + Sum(keys - {k}, after);
      SumDrops(keys - {k}, before, after);
      if after(k) == before(k) {
        forall j | j in keys && after(j) < before(j)
          ensures j in keys - {k} {}
      }
    }
  }

  /** A single strict drop anywhere makes the gap at least that large. */
  lemma {:induction false} SumDropsBy<T(!new)>(keys: set<T>, before: T -> nat, after: T -> nat, at: T, gap: nat)
    requires at in keys && after(at) + gap <= before(at)
    requires forall k :: k in keys ==> after(k) <= before(k)
    ensures Sum(keys, after) + gap <= Sum(keys, before)
  {
    var k :| k in keys && Sum(keys, before) == before(k) + Sum(keys - {k}, before)
                       && Sum(keys, after) == after(k) + Sum(keys - {k}, after);
    if k == at {
      SumDrops(keys - {k}, before, after);
    } else {
      SumDropsBy(keys - {k}, before, after, at, gap);
    }
  }
}
