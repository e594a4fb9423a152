/**
 * pandas `groupby(key)[...].sum()` over string keys: the keys that occur, in
 * ascending order, each with the sum of the amounts filed under it.
 */
module Grouping {
  import opened Lex

  /** One amount filed under one key; also one line of a grouped result. */
  datatype Entry = Entry(key: string, amount: real)

  /** Sum of all amounts. */
  function Sum(es: seq<Entry>): real
  {
    if es == [] then 0.0 else es[0].amount + Sum(es[1..])
  }

  /** Sum of the amounts filed under `k`; 0 when there are none. */
  function KeyTotal(es: seq<Entry>, k: string): real
  {
    if es == [] then 0.0
    else (if es[0].key == k then es[0].amount else 0.0) + KeyTotal(es[1..], k)
  }

  /** The keys that occur. */
  function KeySet(es: seq<Entry>): set<string>
  {
    if es == [] then {} else {es[0].key} + KeySet(es[1..])
  }

  /** The keys in order (the index of a grouped result). */
  function Keys(es: seq<Entry>): seq<string>
  {
    if es == [] then [] else [es[0].key] + Keys(es[1..])
  }

  /** Keys strictly ascending, so in particular distinct. */
  predicate Ascending(g: seq<Entry>)
  {
    |g| <= 1 || (LexLt(g[0].key, g[1].key) && Ascending(g[1..]))
  }

  /** Strings strictly ascending: the order of a grouped result's index. */
  predicate StrictlyAscending(ks: seq<string>)
  {
    forall i :: 0 <= i < |ks| - 1 ==> LexLt(ks[i], ks[i + 1])
  }

  /** The value a grouped result holds for `k`, or 0 when `k` is absent (`fill_value=0`). */
  function ValueOf(g: seq<Entry>, k: string): real
  {
    if g == [] then 0.0 else if g[0].key == k then g[0].amount else ValueOf(g[1..], k)
  }

  /** Files `x` under `k` in an ascending grouped result. */
  function Accumulate(g: seq<Entry>, k: string, x: real): seq<Entry>
  {
    if g == [] then [Entry(k, x)]
    else if g[0].key == k then [Entry(k, g[0].amount + x)] + g[1..]
    else if LexLe(k, g[0].key) then [Entry(k, x)] + g
    else [g[0]] + Accumulate(g[1..], k, x)
  }

  /** `groupby(key).sum()`. */
  function Group(es: seq<Entry>): seq<Entry>
  {
    if es == [] then [] else Accumulate(Group(es[1..]), es[0].key, es[0].amount)
  }

  /** The values of `g` looked up at each of `ks`, 0 where absent. */
  function Lookups(g: seq<Entry>, ks: seq<string>): seq<real>
  {
    if ks == [] then [] else [ValueOf(g, ks[0])] + Lookups(g, ks[1..])
  }

  function SumReals(xs: seq<real>): real
  {
    if xs == [] then 0.0 else xs[0] + SumReals(xs[1..])
  }

  /** Sum of the amounts whose key lies in `ks`. */
  function SumWhere(g: seq<Entry>, ks: set<string>): real
  {
    if g == [] then 0.0
    else (if g[0].key in ks then g[0].amount else 0.0) + SumWhere(g[1..], ks)
  }

  // ---------------------------------------------------------------- ordering

  /** The first key of an ascending result is below every later key. */
  lemma {:induction false} HeadBelow(g: seq<Entry>)
    requires Ascending(g) && |g| > 0
    ensures forall k :: k in KeySet(g[1..]) ==> LexLt(g[0].key, k)
  {
    if |g| > 1 {
      HeadBelow(g[1..]);
      assert g[1..][1..] == g[2..];
      forall k | k in KeySet(g[1..])
        ensures LexLt(g[0].key, k)
      {
        if k != g[1].key {
          LtTransitive(g[0].key, g[1].key, k);
        }
      }
    }
  }

  lemma HeadNotLater(g: seq<Entry>)
    requires Ascending(g) && |g| > 0
    ensures g[0].key !in KeySet(g[1..])
  {
    HeadBelow(g);
  }

  /** The index of an ascending result is strictly ascending. */
  lemma {:induction false} AscendingAt(g: seq<Entry>)
    requires Ascending(g)
    ensures |Keys(g)| == |g|
    ensures forall i :: 0 <= i < |g| ==> Keys(g)[i] == g[i].key
    ensures StrictlyAscending(Keys(g))
  {
    if g != [] {
      AscendingAt(g[1..]);
    }
  }

  lemma {:induction false} KeysMatchKeySet(g: seq<Entry>)
    ensures forall k :: k in Keys(g) <==> k in KeySet(g)
  {
    if g != [] {
      KeysMatchKeySet(g[1..]);
    }
  }

  lemma {:induction false} ValueOfAbsent(g: seq<Entry>, k: string)
    requires k !in KeySet(g)
    ensures ValueOf(g, k) == 0.0
  {
    if g != [] {
      ValueOfAbsent(g[1..], k);
    }
  }

  // -------------------------------------------------------------- Accumulate

  lemma {:induction false} AccumulateKeys(g: seq<Entry>, k: string, x: real)
    ensures KeySet(Accumulate(g, k, x)) == KeySet(g) + {k}
    ensures |Accumulate(g, k, x)| > 0
  {
    if g != [] {
      if g[0].key == k {
        assert KeySet(Accumulate(g, k, x)) == {k} + KeySet(g[1..]);
      } else if LexLe(k, g[0].key) {
        assert KeySet(Accumulate(g, k, x)) == {k} + KeySet(g);
      } else {
        AccumulateKeys(g[1..], k, x);
        assert Accumulate(g, k, x)[1..] == Accumulate(g[1..], k, x);
      }
    }
  }

  lemma {:induction false} AccumulateAscending(g: seq<Entry>, k: string, x: real)
    requires Ascending(g)
    ensures Ascending(Accumulate(g, k, x))
  {
    if g != [] && g[0].key != k {
      if LexLe(k, g[0].key) {
        assert LexLt(k, g[0].key);
      } else {
        var a := Accumulate(g[1..], k, x);
        AccumulateAscending(g[1..], k, x);
        AccumulateKeys(g[1..], k, x);
        assert a[0].key in KeySet(a);
        HeadBelow(g);
        LtIffNotLe(g[0].key, k);
        assert Accumulate(g, k, x) == [g[0]] + a;
        assert ([g[0]] + a)[1..] == a;
      }
    }
  }

  lemma {:induction false} AccumulateValue(g: seq<Entry>, k: string, x: real, m: string)
    requires Ascending(g)
    ensures ValueOf(Accumulate(g, k, x), m) == ValueOf(g, m) + (if m == k then x else 0.0)
  {
    if g == [] {
    } else if g[0].key == k {
      assert Accumulate(g, k, x)[1..] == g[1..];
    } else if LexLe(k, g[0].key) {
      assert Accumulate(g, k, x)[1..] == g;
      if k in KeySet(g[1..]) {
        HeadBelow(g);
        LeAntisymmetric(k, g[0].key);
      }
      ValueOfAbsent(g, k);
    } else {
      AccumulateValue(g[1..], k, x, m);
      assert Accumulate(g, k, x)[1..] == Accumulate(g[1..], k, x);
    }
  }

  lemma {:induction false} AccumulateSum(g: seq<Entry>, k: string, x: real)
    ensures Sum(Accumulate(g, k, x)) == Sum(g) + x
  {
    if g == [] {
    } else if g[0].key == k {
      assert Accumulate(g, k, x)[1..] == g[1..];
    } else if LexLe(k, g[0].key) {
      assert Accumulate(g, k, x)[1..] == g;
    } else {
      AccumulateSum(g[1..], k, x);
      assert Accumulate(g, k, x)[1..] == Accumulate(g[1..], k, x);
    }
  }

  // ------------------------------------------------------------------- Group

  /** The grouped result is ascending and holds exactly the keys that occur. */
  lemma {:induction false} GroupKeys(es: seq<Entry>)
    ensures Ascending(Group(es))
    ensures KeySet(Group(es)) == KeySet(es)
    ensures Group(es) == [] <==> es == []
  {
    if es != [] {
      GroupKeys(es[1..]);
      AccumulateAscending(Group(es[1..]), es[0].key, es[0].amount);
      AccumulateKeys(Group(es[1..]), es[0].key, es[0].amount);
    }
  }

  /** Each key's value is the sum of the amounts filed under it (0 for an absent key). */
  lemma {:induction false} GroupValue(es: seq<Entry>, k: string)
    ensures ValueOf(Group(es), k) == KeyTotal(es, k)
  {
    if es != [] {
      GroupValue(es[1..], k);
      GroupKeys(es[1..]);
      AccumulateValue(Group(es[1..]), es[0].key, es[0].amount, k);
    }
  }

  /** The values of the grouped result add up to the sum of all amounts. */
  lemma {:induction false} GroupSum(es: seq<Entry>)
    ensures Sum(Group(es)) == Sum(es)
  {
    if es != [] {
      GroupSum(es[1..]);
      AccumulateSum(Group(es[1..]), es[0].key, es[0].amount);
    }
  }

  /** In an ascending result, every line holds the value `ValueOf` finds for its key. */
  lemma {:induction false} EntryIsValueOf(g: seq<Entry>, i: int)
    requires Ascending(g) && 0 <= i < |g|
    ensures g[i].amount == ValueOf(g, g[i].key)
  {
    if i > 0 {
      EntryIsValueOf(g[1..], i - 1);
      assert g[1..][i - 1] == g[i];
      KeysMatchKeySet(g[1..]);
      AscendingAt(g[1..]);
      assert g[i].key in Keys(g[1..]);
      HeadNotLater(g);
    }
  }

  /** Every line of the grouped result is its key with the sum filed under that key. */
  lemma GroupEntries(es: seq<Entry>)
    ensures forall i :: 0 <= i < |Group(es)| ==> Group(es)[i].amount == KeyTotal(es, Group(es)[i].key)
  {
    GroupKeys(es);
    forall i | 0 <= i < |Group(es)|
      ensures Group(es)[i].amount == KeyTotal(es, Group(es)[i].key)
    {
      EntryIsValueOf(Group(es), i);
      GroupValue(es, Group(es)[i].key);
    }
  }

  // ------------------------------------------------------- filled-in columns

  lemma {:induction false} SumWhereAdd(g: seq<Entry>, ks: set<string>, m: string)
    requires Ascending(g) && m !in ks
    ensures SumWhere(g, ks + {m}) == ValueOf(g, m) + SumWhere(g, ks)
  {
    if g != [] {
      SumWhereAdd(g[1..], ks, m);
      if g[0].key == m {
        HeadNotLater(g);
        ValueOfAbsent(g[1..], m);
      }
    }
  }

  lemma {:induction false} SumWhereNone(g: seq<Entry>)
    ensures SumWhere(g, {}) == 0.0
  {
    if g != [] {
      SumWhereNone(g[1..]);
    }
  }

  lemma {:induction false} SumWhereAll(g: seq<Entry>, ks: set<string>)
    requires KeySet(g) <= ks
    ensures SumWhere(g, ks) == Sum(g)
  {
    if g != [] {
      SumWhereAll(g[1..], ks);
    }
  }

  lemma {:induction false} LookupsSumWhere(g: seq<Entry>, h: seq<Entry>)
    requires Ascending(g) && Ascending(h)
    ensures |Lookups(g, Keys(h))| == |h|
    ensures SumReals(Lookups(g, Keys(h))) == SumWhere(g, KeySet(h))
  {
    if h == [] {
      SumWhereNone(g);
    } else {
      LookupsSumWhere(g, h[1..]);
      HeadNotLater(h);
      SumWhereAdd(g, KeySet(h[1..]), h[0].key);
      var col := Lookups(g, Keys(h));
      assert Keys(h)[0] == h[0].key && Keys(h)[1..] == Keys(h[1..]);
      assert col[0] == ValueOf(g, h[0].key) && col[1..] == Lookups(g, Keys(h[1..]));
      assert KeySet(h) == KeySet(h[1..]) + {h[0].key};
    }
  }

  /**
   * Looking `g` up at every key of a larger ascending index and filling the
   * gaps with 0 loses nothing: the column still adds up to the sum of `g`.
   */
  lemma FilledColumnSum(g: seq<Entry>, h: seq<Entry>)
    requires Ascending(g) && Ascending(h) && KeySet(g) <= KeySet(h)
    ensures |Lookups(g, Keys(h))| == |h|
    ensures SumReals(Lookups(g, Keys(h))) == Sum(g)
  {
    LookupsSumWhere(g, h);
    SumWhereAll(g, KeySet(h));
  }

  lemma {:induction false} LookupsAt(g: seq<Entry>, ks: seq<string>)
    ensures |Lookups(g, ks)| == |ks|
    ensures forall i :: 0 <= i < |ks| ==> Lookups(g, ks)[i] == ValueOf(g, ks[i])
  {
    if ks != [] {
      LookupsAt(g, ks[1..]);
    }
  }
}
