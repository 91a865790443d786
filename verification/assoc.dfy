/** Insertion-ordered string-keyed records, the way the source uses plain
    objects (`Record<string, …>`): a lookup finds the first entry with the
    key, an assignment to an existing key overwrites that entry in place, and
    an assignment to a new key appends it. */
module Assoc {
  import opened Wrappers

  type Assoc<V> = seq<(string, V)>

  function Keys<V>(a: Assoc<V>): (ks: seq<string>)
    ensures |ks| == |a|
    ensures forall i | 0 <= i < |a| :: ks[i] == a[i].0
  {
    seq(|a|, i requires 0 <= i < |a| => a[i].0)
  }

  predicate UniqueKeys<V>(a: Assoc<V>) {
    forall i, j | 0 <= i < j < |a| :: a[i].0 != a[j].0
  }

  /** The position of the first entry with key `k`. */
  function IndexOf<V>(a: Assoc<V>, k: string): (i: nat)
    requires k in Keys(a)
    ensures i < |a| && a[i].0 == k
    ensures forall j | 0 <= j < i :: a[j].0 != k
  {
    if a[0].0 == k then 0
    else
      assert Keys(a) == [a[0].0] + Keys(a[1..]);
      1 + IndexOf(a[1..], k)
  }

  /** Any position whose key occurs nowhere before it is the one `IndexOf` finds. */
  lemma IndexOfIsFirst<V>(a: Assoc<V>, k: string, i: nat)
    requires i < |a| && a[i].0 == k
    requires forall j | 0 <= j < i :: a[j].0 != k
    ensures k in Keys(a) && IndexOf(a, k) == i
  {
    assert Keys(a)[i] == k;
  }

  /** `a[k]`: the value of the first entry with key `k`, or `None` (`undefined`). */
  function Get<V>(a: Assoc<V>, k: string): Option<V> {
    if k in Keys(a) then Some(a[IndexOf(a, k)].1) else None
  }

  /** `a[k] = v`: overwrite the first entry with key `k` in place, or append. */
  function Put<V>(a: Assoc<V>, k: string, v: V): (r: Assoc<V>)
    ensures k in Keys(a) ==> |r| == |a| && Keys(r) == Keys(a)
    ensures k !in Keys(a) ==> r == a + [(k, v)]
    ensures forall i | 0 <= i < |a| && a[i].0 != k :: r[i] == a[i]
    ensures forall k' :: k' in Keys(r) <==> k' in Keys(a) || k' == k
  {
    if k in Keys(a) then a[IndexOf(a, k) := (k, v)]
    else
      assert Keys(a + [(k, v)]) == Keys(a) + [k];
      a + [(k, v)]
  }

  /** After `a[k] = v`, `k` reads `v` and every other key reads what it read before. */
  lemma PutGet<V>(a: Assoc<V>, k: string, v: V, k': string)
    ensures Get(Put(a, k, v), k) == Some(v)
    ensures k' != k ==> Get(Put(a, k, v), k') == Get(a, k')
  {
    var r := Put(a, k, v);
    if k in Keys(a) {
      IndexOfIsFirst(r, k, IndexOf(a, k));
    } else {
      IndexOfIsFirst(r, k, |a|);
    }
    if k' != k && k' in Keys(a) {
      IndexOfIsFirst(r, k', IndexOf(a, k'));
    }
    if k' != k && k' !in Keys(a) {
      assert k' !in Keys(r);
    }
  }

  lemma PutUnique<V>(a: Assoc<V>, k: string, v: V)
    requires UniqueKeys(a)
    ensures UniqueKeys(Put(a, k, v))
  {
    var r := Put(a, k, v);
    if k in Keys(a) {
      forall i, j | 0 <= i < j < |r|
        ensures r[i].0 != r[j].0
      {
        assert Keys(r)[i] == Keys(a)[i] && Keys(r)[j] == Keys(a)[j];
      }
    } else {
      forall i, j | 0 <= i < j < |r|
        ensures r[i].0 != r[j].0
      {
        if j == |a| {
          assert Keys(a)[i] == a[i].0;
        }
      }
    }
  }

  /** The record a left-to-right fold of `acc[key] = value` over `es` builds
      from an empty one (`Object.entries(...).reduce` and `forEach` in the
      source). */
  function FromEntries<V>(es: Assoc<V>): Assoc<V>
    decreases |es|
  {
    if |es| == 0 then []
    else Put(FromEntries(es[..|es| - 1]), es[|es| - 1].0, es[|es| - 1].1)
  }

  /** The fold's keys are distinct and are exactly the keys of its input. */
  lemma {:induction false} FromEntriesKeys<V>(es: Assoc<V>)
    ensures UniqueKeys(FromEntries(es))
    ensures forall k :: k in Keys(FromEntries(es)) <==> k in Keys(es)
    decreases |es|
  {
    if |es| > 0 {
      var prefix := es[..|es| - 1];
      var last := es[|es| - 1];
      FromEntriesKeys(prefix);
      PutUnique(FromEntries(prefix), last.0, last.1);
      assert Keys(es) == Keys(prefix) + [last.0];
    }
  }

  /** On entries whose keys are already distinct, the fold rebuilds them as they are. */
  lemma {:induction false} FromEntriesOfUnique<V>(es: Assoc<V>)
    requires UniqueKeys(es)
    ensures FromEntries(es) == es
    decreases |es|
  {
    if |es| > 0 {
      var prefix := es[..|es| - 1];
      var last := es[|es| - 1];
      assert UniqueKeys(prefix) by {
        forall i, j | 0 <= i < j < |prefix|
          ensures prefix[i].0 != prefix[j].0
        {
          assert prefix[i] == es[i] && prefix[j] == es[j];
        }
      }
      FromEntriesOfUnique(prefix);
      forall i | 0 <= i < |prefix|
        ensures Keys(prefix)[i] != last.0
      {
        assert es[i].0 != es[|es| - 1].0;
      }
      assert prefix + [last] == es;
    }
  }

  /** The fold gives each key the value of its last entry. */
  lemma {:induction false} FromEntriesGet<V>(es: Assoc<V>, i: nat)
    requires i < |es|
    requires forall j | i < j < |es| :: es[j].0 != es[i].0
    ensures Get(FromEntries(es), es[i].0) == Some(es[i].1)
    decreases |es|
  {
    var prefix := es[..|es| - 1];
    var last := es[|es| - 1];
    PutGet(FromEntries(prefix), last.0, last.1, es[i].0);
    if i < |es| - 1 {
      FromEntriesGet(prefix, i);
    }
  }

  /** Every entry of the fold is one of its input's entries. */
  lemma {:induction false} FromEntriesFromInput<V>(es: Assoc<V>)
    ensures forall i | 0 <= i < |FromEntries(es)| :: FromEntries(es)[i] in es
    decreases |es|
  {
    if |es| > 0 {
      var prefix := es[..|es| - 1];
      var last := es[|es| - 1];
      FromEntriesFromInput(prefix);
      var acc := FromEntries(prefix);
      var r := Put(acc, last.0, last.1);
      forall i | 0 <= i < |r|
        ensures r[i] in es
      {
        if last.0 in Keys(acc) && i == IndexOf(acc, last.0) {
          assert r[i] == last;
        } else if i < |acc| {
          assert r[i] == acc[i] && acc[i] in prefix;
        } else {
          assert r[i] == last;
        }
      }
    }
  }

  /** `Object.assign(target, source)`: each of the source's entries in turn
      is written into the target. */
  function Assign<V>(target: Assoc<V>, source: Assoc<V>): Assoc<V>
    decreases |source|
  {
    if |source| == 0 then target
    else Put(Assign(target, source[..|source| - 1]), source[|source| - 1].0, source[|source| - 1].1)
  }

  /** After the assignment a key the source lacks reads what it read in the target. */
  lemma {:induction false} AssignUntouched<V>(target: Assoc<V>, source: Assoc<V>, k: string)
    requires k !in Keys(source)
    ensures Get(Assign(target, source), k) == Get(target, k)
    decreases |source|
  {
    if |source| > 0 {
      var prefix := source[..|source| - 1];
      var last := source[|source| - 1];
      assert Keys(source) == Keys(prefix) + [last.0];
      AssignUntouched(target, prefix, k);
      PutGet(Assign(target, prefix), last.0, last.1, k);
    }
  }

  /** After the assignment a key of the source reads the value of its last entry there. */
  lemma {:induction false} AssignGet<V>(target: Assoc<V>, source: Assoc<V>, i: nat)
    requires i < |source|
    requires forall j | i < j < |source| :: source[j].0 != source[i].0
    ensures Get(Assign(target, source), source[i].0) == Some(source[i].1)
    decreases |source|
  {
    var prefix := source[..|source| - 1];
    var last := source[|source| - 1];
    PutGet(Assign(target, prefix), last.0, last.1, source[i].0);
    if i < |source| - 1 {
      AssignGet(target, prefix, i);
    }
  }

  /** The assignment keeps the target's key order and appends the new keys. */
  lemma {:induction false} AssignKeys<V>(target: Assoc<V>, source: Assoc<V>)
    ensures forall k :: k in Keys(Assign(target, source)) <==> k in Keys(target) || k in Keys(source)
    ensures |Assign(target, source)| >= |target|
    ensures Keys(Assign(target, source))[..|target|] == Keys(target)
    decreases |source|
  {
    if |source| > 0 {
      var prefix := source[..|source| - 1];
      var last := source[|source| - 1];
      AssignKeys(target, prefix);
      var acc := Assign(target, prefix);
      var r := Put(acc, last.0, last.1);
      assert Keys(source) == Keys(prefix) + [last.0];
      if last.0 in Keys(acc) {
        assert Keys(r) == Keys(acc);
      } else {
        assert Keys(r) == Keys(acc) + [last.0];
        assert Keys(r)[..|target|] == Keys(acc)[..|target|];
      }
    }
  }

  function MapValues<V, W>(a: Assoc<V>, f: V -> W): (r: Assoc<W>)
    ensures Keys(r) == Keys(a)
    ensures forall i | 0 <= i < |a| :: r[i].1 == f(a[i].1)
  {
    seq(|a|, i requires 0 <= i < |a| => (a[i].0, f(a[i].1)))
  }

  lemma MapValuesUnique<V, W>(a: Assoc<V>, f: V -> W)
    requires UniqueKeys(a)
    ensures UniqueKeys(MapValues(a, f))
  {
    var r := MapValues(a, f);
    forall i, j | 0 <= i < j < |r|
      ensures r[i].0 != r[j].0
    {
      assert Keys(r)[i] == Keys(a)[i] && Keys(r)[j] == Keys(a)[j];
    }
  }
}
