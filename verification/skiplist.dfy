/**
 * The skip list: values left out of every result set, and its persistent
 * `not` / `add` derivations, which build a new list and leave the receiver alone.
 */
module SkipList {
  import opened Json

  /** `select.skip` without its not-a-number entry: `[undefined, null, false]`. */
  const Default: seq<Value> := [Undefined, Null, Bool(false)]

  /** `skip.not(v)`: a new list keeping, in order, every entry that is not `v`. */
  function Not(list: seq<Value>, v: Value): (r: seq<Value>)
    ensures v !in r
    ensures forall e :: e in r <==> e in list && e != v
  {
    if list == [] then []
    else
      assert list == [list[0]] + list[1..];
      (if list[0] == v then [] else [list[0]]) + Not(list[1..], v)
  }

  /** Removing from a list with a first entry `x` decides `x`, then goes on with the rest. */
  lemma NotCons(x: Value, t: seq<Value>, v: Value)
    ensures Not([x] + t, v) == (if x == v then [] else [x]) + Not(t, v)
  {
    assert ([x] + t)[1..] == t;
  }

  /** `filter` keeps the order of the entries: removing from two lists joined is removing from each. */
  lemma {:induction false} NotAppend(a: seq<Value>, b: seq<Value>, v: Value)
    ensures Not(a + b, v) == Not(a, v) + Not(b, v)
    decreases |a|
  {
    if a == [] {
      assert a + b == b;
    } else {
      assert (a + b)[0] == a[0] && (a + b)[1..] == a[1..] + b;
      NotAppend(a[1..], b, v);
    }
  }

  /** `filter` keeps every copy of every other entry: only the copies of `v` go. */
  lemma {:induction false} NotCount(list: seq<Value>, v: Value)
    ensures multiset(Not(list, v)) == multiset(list)[v := 0]
    ensures |Not(list, v)| == |list| - multiset(list)[v]
    decreases |list|
  {
    if list != [] {
      var x, t := list[0], list[1..];
      assert list == [x] + t;
      NotCons(x, t, v);
      NotCount(t, v);
      assert multiset(list) == multiset{x} + multiset(t);
      if x != v {
        assert multiset(Not(list, v)) == multiset{x} + multiset(Not(t, v));
      }
    }
  }

  /** `skip.add(v)`: a new list with `v` appended after every existing entry. */
  function Add(list: seq<Value>, v: Value): (r: seq<Value>)
    ensures |r| == |list| + 1 && r[..|list|] == list && r[|list|] == v
  {
    list + [v]
  }

  /** Removing a value and appending it again leaves the values of the list plus that value. */
  lemma NotThenAdd(list: seq<Value>, v: Value)
    ensures (set e | e in Add(Not(list, v), v)) == (set e | e in list) + {v}
  {
    var r := Add(Not(list, v), v);
    assert r == Not(list, v) + [v];
    forall e ensures e in r <==> e in list || e == v {
      if e in r && e != v {
        assert e in Not(list, v);
      }
    }
  }

  /** With `false` dropped from the default list, `false` is no longer skipped; `undefined` and `null` still are. */
  lemma DefaultNotFalse()
    ensures Bool(false) !in Not(Default, Bool(false))
    ensures Not(Default, Bool(false)) == [Undefined, Null]
  {
    assert Default[1..][1..] == [Bool(false)];
  }
}
