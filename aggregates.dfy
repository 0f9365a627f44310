/**
 * The dashboard's aggregations over a table's rows: distinct counts (nunique), grouped
 * sums (groupby(...).sum()), their descending and ascending orderings, the top-N cut
 * (head), the promotion split and the trailing mean (rolling(w, min_periods=1).mean()).
 */
module Aggregates {
  import opened Wrappers
  import opened Calendar
  import opened Frames

  /** Some row holds the value v in column c. */
  predicate Occurs(rs: seq<Record>, c: string, v: Value) {
    exists i :: 0 <= i < |rs| && Get(rs[i], c) == Some(v)
  }

  /** df[c].unique() without the missing value, in order of first occurrence. */
  function DistinctValues(rs: seq<Record>, c: string): (vs: seq<Value>)
    ensures Distinct(vs)
    ensures forall v :: v in vs <==> Occurs(rs, c, v)
  {
    if rs == [] then []
    else
      var n := |rs| - 1;
      var front := DistinctValues(rs[..n], c);
      assert forall v :: Occurs(rs, c, v) <==> Occurs(rs[..n], c, v) || Get(rs[n], c) == Some(v) by {
        forall v ensures Occurs(rs, c, v) <==> Occurs(rs[..n], c, v) || Get(rs[n], c) == Some(v) {
          if Occurs(rs, c, v) {
            var i :| 0 <= i < |rs| && Get(rs[i], c) == Some(v);
            if i < n {
              assert rs[..n][i] == rs[i];
            }
          }
          if Occurs(rs[..n], c, v) {
            var i :| 0 <= i < n && Get(rs[..n][i], c) == Some(v);
            assert rs[i] == rs[..n][i];
          }
        }
      }
      match Get(rs[n], c)
      case Some(v) => if v in front then front else front + [v]
      case None => front
  }

  /** The set of the non-missing values of column c. */
  function ValueSet(rs: seq<Record>, c: string): set<Value> {
    set i | 0 <= i < |rs| && c in rs[i].cells :: rs[i].cells[c]
  }

  /** df[c].nunique(): how many distinct non-missing values the column holds. */
  function NUnique(rs: seq<Record>, c: string): (n: nat)
    ensures n == |ValueSet(rs, c)|
  {
    var vs := DistinctValues(rs, c);
    assert ValueSet(rs, c) == set v | v in vs by {
      forall v ensures v in ValueSet(rs, c) <==> v in vs {
        if v in ValueSet(rs, c) {
          var i :| 0 <= i < |rs| && c in rs[i].cells && rs[i].cells[c] == v;
          assert Get(rs[i], c) == Some(v);
        }
      }
    }
    DistinctCard(vs);
    |vs|
  }

  /** A sequence without repetitions has as many elements as its set. */
  lemma {:induction false} DistinctCard<T>(s: seq<T>)
    requires Distinct(s)
    ensures |set x | x in s| == |s|
  {
    if s != [] {
      var n := |s| - 1;
      DistinctCard(s[..n]);
      assert (set x | x in s) == (set x | x in s[..n]) + {s[n]};
      assert s[n] !in s[..n];
    }
  }

  /** One row of a grouped sum: the group's key and its total. */
  datatype Group = Group(key: Value, total: real)

  /** The total of column col over the rows whose column c holds v; missing cells count 0. */
  function GroupSum(rs: seq<Record>, c: string, v: Value, col: string): real {
    SumBy(Select(rs, Equals(c, v)), col)
  }

  /** g is the group of key g.key: the key occurs and g.total is its rows' sum. */
  predicate IsGroupOf(rs: seq<Record>, c: string, col: string, g: Group) {
    Occurs(rs, c, g.key) && g.total == GroupSum(rs, c, g.key, col)
  }

  /** df.groupby(c)[col].sum(): one group per distinct non-missing key; rows with a missing key are dropped. */
  function Grouped(rs: seq<Record>, c: string, col: string): (gs: seq<Group>)
    ensures |gs| == NUnique(rs, c)
    ensures forall g :: g in gs <==> IsGroupOf(rs, c, col, g)
    ensures Distinct(gs)
  {
    var keys := DistinctValues(rs, c);
    var gs := seq(|keys|, i requires 0 <= i < |keys| => Group(keys[i], GroupSum(rs, c, keys[i], col)));
    assert forall g :: IsGroupOf(rs, c, col, g) ==> g in gs by {
      forall g | IsGroupOf(rs, c, col, g) ensures g in gs {
        var i :| 0 <= i < |keys| && keys[i] == g.key;
        assert gs[i] == g;
      }
    }
    gs
  }

  /** The sum of the totals of a sequence of groups. */
  function GroupsTotal(gs: seq<Group>): real {
    if gs == [] then 0.0 else GroupsTotal(gs[..|gs| - 1]) + gs[|gs| - 1].total
  }

  /** The sums of col over the groups of the given keys. */
  function KeySums(rs: seq<Record>, c: string, keys: seq<Value>, col: string): real {
    if keys == [] then 0.0 else KeySums(rs, c, keys[..|keys| - 1], col) + GroupSum(rs, c, keys[|keys| - 1], col)
  }

  /**
   * groupby drops only the rows with a missing key: the groups' totals add up to the total
   * over the rows whose key is present, so no row is counted twice and none is lost.
   */
  lemma {:induction false} GroupsAddUp(rs: seq<Record>, c: string, col: string)
    ensures GroupsTotal(Grouped(rs, c, col)) == SumBy(Select(rs, NotNull(c)), col)
  {
    GroupsAsKeySums(rs, c, col, Grouped(rs, c, col), DistinctValues(rs, c));
    KeySumsAddUp(rs, c, col);
  }

  lemma {:induction false} GroupsAsKeySums(rs: seq<Record>, c: string, col: string, gs: seq<Group>, keys: seq<Value>)
    requires |gs| == |keys| && forall i :: 0 <= i < |gs| ==> gs[i] == Group(keys[i], GroupSum(rs, c, keys[i], col))
    ensures GroupsTotal(gs) == KeySums(rs, c, keys, col)
  {
    if gs != [] {
      var n := |gs| - 1;
      GroupsAsKeySums(rs, c, col, gs[..n], keys[..n]);
    }
  }

  /** Appending a row adds its value to its own key's sum and changes no other. */
  lemma GroupSumSnoc(rs: seq<Record>, x: Record, c: string, v: Value, col: string)
    ensures GroupSum(rs + [x], c, v, col) == GroupSum(rs, c, v, col) + if Get(x, c) == Some(v) then NumberOf(Get(x, col)) else 0.0
  {
    var cond := Equals(c, v);
    assert (rs + [x])[..|rs|] == rs;
    SelectSnoc(rs + [x], cond);
    assert Holds(cond, x) <==> Get(x, c) == Some(v);
    if Holds(cond, x) {
      assert Select(rs + [x], cond) == Select(rs, cond) + [x];
      SumBySnoc(Select(rs, cond), x, col);
    } else {
      assert Select(rs + [x], cond) == Select(rs, cond);
    }
  }

  lemma {:induction false} KeySumsSnoc(rs: seq<Record>, x: Record, c: string, keys: seq<Value>, col: string)
    requires Distinct(keys)
    ensures KeySums(rs + [x], c, keys, col) == KeySums(rs, c, keys, col)
      + if Get(x, c).Some? && Get(x, c).value in keys then NumberOf(Get(x, col)) else 0.0
  {
    if keys != [] {
      var n := |keys| - 1;
      assert Distinct(keys[..n]);
      KeySumsSnoc(rs, x, c, keys[..n], col);
      GroupSumSnoc(rs, x, c, keys[n], col);
      assert keys == keys[..n] + [keys[n]] && keys[n] !in keys[..n];
    }
  }

  /** A key that no row holds has an empty group. */
  lemma {:induction false} AbsentKeySum(rs: seq<Record>, c: string, v: Value, col: string)
    requires !Occurs(rs, c, v)
    ensures GroupSum(rs, c, v, col) == 0.0
  {
    if rs != [] {
      var n := |rs| - 1;
      var front, x := rs[..n], rs[n];
      assert rs == front + [x];
      AbsentFromFront(rs, c, v);
      AbsentKeySum(front, c, v, col);
      GroupSumSnoc(front, x, c, v, col);
    }
  }

  /** A value that no row holds is held neither by the rows before the last nor by the last. */
  lemma AbsentFromFront(rs: seq<Record>, c: string, v: Value)
    requires rs != [] && !Occurs(rs, c, v)
    ensures !Occurs(rs[..|rs| - 1], c, v) && Get(rs[|rs| - 1], c) != Some(v)
  {
    var n := |rs| - 1;
    forall i | 0 <= i < n ensures Get(rs[..n][i], c) != Some(v) {
      assert rs[..n][i] == rs[i];
    }
  }

  lemma {:induction false} KeySumsAddUp(rs: seq<Record>, c: string, col: string)
    ensures KeySums(rs, c, DistinctValues(rs, c), col) == SumBy(Select(rs, NotNull(c)), col)
  {
    if rs != [] {
      var front, x := rs[..|rs| - 1], rs[|rs| - 1];
      assert rs == front + [x];
      KeySumsAddUp(front, c, col);
      KeySumsAddRow(front, x, c, col);
    }
  }

  /** One more row adds its value to the key sums exactly when its key is present. */
  lemma KeySumsAddRow(front: seq<Record>, x: Record, c: string, col: string)
    requires KeySums(front, c, DistinctValues(front, c), col) == SumBy(Select(front, NotNull(c)), col)
    ensures KeySums(front + [x], c, DistinctValues(front + [x], c), col) == SumBy(Select(front + [x], NotNull(c)), col)
  {
    var keys := DistinctValues(front, c);
    DistinctValuesSnoc(front, x, c);
    KeySumsSnoc(front, x, c, keys, col);
    KeyedSumSnoc(front, x, c, col);
    if Get(x, c).Some? && Get(x, c).value !in keys {
      NewKeySum(front, x, c, Get(x, c).value, keys, col);
    }
  }

  /** unique() on one more row: the row's key is appended when present and new. */
  lemma DistinctValuesSnoc(front: seq<Record>, x: Record, c: string)
    ensures var keys := DistinctValues(front, c);
      DistinctValues(front + [x], c) == if Get(x, c).Some? && Get(x, c).value !in keys then keys + [Get(x, c).value] else keys
  {
    assert (front + [x])[..|front|] == front;
  }

  /** One more row adds its value to the total over the keyed rows when its key is present. */
  lemma KeyedSumSnoc(front: seq<Record>, x: Record, c: string, col: string)
    ensures SumBy(Select(front + [x], NotNull(c)), col)
      == SumBy(Select(front, NotNull(c)), col) + if Get(x, c).Some? then NumberOf(Get(x, col)) else 0.0
  {
    var rs := front + [x];
    assert rs[..|front|] == front;
    SelectSnoc(rs, NotNull(c));
    if Get(x, c).Some? {
      assert Select(rs, NotNull(c)) == Select(front, NotNull(c)) + [x];
      SumBySnoc(Select(front, NotNull(c)), x, col);
    } else {
      assert Select(rs, NotNull(c)) == Select(front, NotNull(c));
    }
  }

  /** A key first seen in the last row: its group holds that row alone. */
  lemma NewKeySum(front: seq<Record>, x: Record, c: string, v: Value, keys: seq<Value>, col: string)
    requires keys == DistinctValues(front, c) && Get(x, c) == Some(v) && v !in keys
    ensures KeySums(front + [x], c, keys + [v], col) == KeySums(front + [x], c, keys, col) + NumberOf(Get(x, col))
  {
    assert (keys + [v])[..|keys|] == keys;
    GroupSumSnoc(front, x, c, v, col);
    AbsentKeySum(front, c, v, col);
  }

  /** Taking one group out of a sequence takes its total out of the sum. */
  lemma {:induction false} GroupsTotalRemove(gs: seq<Group>, k: int)
    requires 0 <= k < |gs|
    ensures GroupsTotal(gs) == GroupsTotal(gs[..k] + gs[k + 1..]) + gs[k].total
  {
    var n := |gs| - 1;
    if k < n {
      GroupsTotalRemove(gs[..n], k);
      var rest := gs[..k] + gs[k + 1..];
      assert gs[..n][..k] == gs[..k];
      assert rest == (gs[..n][..k] + gs[..n][k + 1..]) + [gs[n]];
      assert rest[..|rest| - 1] == gs[..n][..k] + gs[..n][k + 1..];
    } else {
      assert gs[..k] + gs[k + 1..] == gs[..n];
    }
  }

  /** The sum of the totals does not depend on the order of the groups. */
  lemma {:induction false} GroupsTotalPermutation(s: seq<Group>, t: seq<Group>)
    requires multiset(s) == multiset(t)
    ensures GroupsTotal(s) == GroupsTotal(t)
    decreases |s|
  {
    if s == [] {
      assert |t| == |multiset(t)| == 0;
    } else {
      var n := |s| - 1;
      assert s[n] in multiset(t);
      var k :| 0 <= k < |t| && t[k] == s[n];
      var rest := t[..k] + t[k + 1..];
      MultisetRemoveLast(s);
      MultisetRemoveAt(t, k);
      GroupsTotalPermutation(s[..n], rest);
      GroupsTotalRemove(t, k);
    }
  }

  /** Dropping the last element of a sequence removes one occurrence of it. */
  lemma MultisetRemoveLast<T>(s: seq<T>)
    requires s != []
    ensures multiset(s[..|s| - 1]) == multiset(s) - multiset{s[|s| - 1]}
  {
    var n := |s| - 1;
    assert s == s[..n] + [s[n]];
    assert multiset(s) == multiset(s[..n]) + multiset{s[n]};
  }

  /** Dropping the element at k of a sequence removes one occurrence of it. */
  lemma MultisetRemoveAt<T>(t: seq<T>, k: int)
    requires 0 <= k < |t|
    ensures multiset(t[..k] + t[k + 1..]) == multiset(t) - multiset{t[k]}
  {
    assert t == t[..k] + [t[k]] + t[k + 1..];
    assert multiset(t) == multiset(t[..k]) + multiset{t[k]} + multiset(t[k + 1..]);
    assert multiset(t[..k] + t[k + 1..]) == multiset(t[..k]) + multiset(t[k + 1..]);
  }

  /** Sorted by key, the groups still add up to the total over the rows whose key is present. */
  lemma ByKeyAddsUp(rs: seq<Record>, c: string, col: string)
    ensures GroupsTotal(ByKey(rs, c, col)) == SumBy(Select(rs, NotNull(c)), col)
  {
    GroupsAddUp(rs, c, col);
    GroupsTotalPermutation(ByKey(rs, c, col), Grouped(rs, c, col));
  }

  /** The two orders the dashboard sorts groups by. */
  datatype Order =
    | TotalDescending  // sort_values(col, ascending=False)
    | KeyAscending     // sort_values(key)

  /** String order: the lexicographic order of Python's str comparison. */
  predicate TextLe(a: string, b: string)
    decreases |a|
  {
    if a == [] then true
    else if b == [] then false
    else if a[0] != b[0] then a[0] < b[0]
    else TextLe(a[1..], b[1..])
  }

  lemma {:induction false} TextLeTotal(a: string, b: string)
    ensures TextLe(a, b) || TextLe(b, a)
    decreases |a|
  {
    if a != [] && b != [] && a[0] == b[0] {
      TextLeTotal(a[1..], b[1..]);
    }
  }

  lemma {:induction false} TextLeTransitive(a: string, b: string, c: string)
    requires TextLe(a, b) && TextLe(b, c)
    ensures TextLe(a, c)
    decreases |a|
  {
    if a != [] && b != [] && c != [] && a[0] == b[0] && b[0] == c[0] {
      TextLeTransitive(a[1..], b[1..], c[1..]);
    }
  }

  /** Values of different kinds never meet in one column; they are ordered by kind. */
  function KindRank(v: Value): int {
    match v
    case Str(_) => 0
    case Int(_) => 1
    case Num(_) => 2
    case Time(_) => 3
  }

  /** The order sort_values uses on a key column: numbers by size, dates by instant, text lexicographically. */
  predicate ValueLe(a: Value, b: Value) {
    match (a, b)
    case (Str(x), Str(y)) => TextLe(x, y)
    case (Int(x), Int(y)) => x <= y
    case (Num(x), Num(y)) => x <= y
    case (Time(x), Time(y)) => Instant(x) <= Instant(y)
    case _ => KindRank(a) < KindRank(b)
  }

  /** a may come before b in the order o. */
  predicate Before(o: Order, a: Group, b: Group) {
    match o
    case TotalDescending => a.total >= b.total
    case KeyAscending => ValueLe(a.key, b.key)
  }

  lemma BeforeTotal(o: Order, a: Group, b: Group)
    ensures Before(o, a, b) || Before(o, b, a)
  {
    if o.KeyAscending? {
      match (a.key, b.key)
      case (Str(x), Str(y)) => TextLeTotal(x, y);
      case _ =>
    }
  }

  lemma BeforeTransitive(o: Order, a: Group, b: Group, c: Group)
    requires Before(o, a, b) && Before(o, b, c)
    ensures Before(o, a, c)
  {
    if o.KeyAscending? {
      match (a.key, b.key, c.key)
      case (Str(x), Str(y), Str(z)) => TextLeTransitive(x, y, z);
      case _ =>
    }
  }

  predicate Sorted(o: Order, s: seq<Group>) {
    forall i, j :: 0 <= i < j < |s| ==> Before(o, s[i], s[j])
  }

  /** Inserts g into a sorted sequence, after the groups that may come before it. */
  function Insert(o: Order, g: Group, s: seq<Group>): (r: seq<Group>)
    requires Sorted(o, s)
    ensures Sorted(o, r) && multiset(r) == multiset(s) + multiset{g}
    decreases |s|
  {
    if s == [] then [g]
    else if Before(o, g, s[0]) then
      assert forall j :: 0 <= j < |s| ==> Before(o, g, s[j]) by {
        forall j | 0 < j < |s| ensures Before(o, g, s[j]) {
          BeforeTransitive(o, g, s[0], s[j]);
        }
      }
      assert s == [s[0]] + s[1..];
      [g] + s
    else
      BeforeTotal(o, g, s[0]);
      var rest := Insert(o, g, s[1..]);
      assert s == [s[0]] + s[1..];
      InsertedAfter(o, s[0], g, s[1..], rest);
      [s[0]] + rest
  }

  /** A group that may precede g and every group of s may precede every group of a permutation of s + [g]. */
  lemma InsertedAfter(o: Order, h: Group, g: Group, s: seq<Group>, rest: seq<Group>)
    requires Before(o, h, g) && (forall j :: 0 <= j < |s| ==> Before(o, h, s[j]))
    requires multiset(rest) == multiset(s) + multiset{g}
    ensures forall j :: 0 <= j < |rest| ==> Before(o, h, rest[j])
  {
    forall j | 0 <= j < |rest| ensures Before(o, h, rest[j]) {
      assert rest[j] in multiset(rest);
      if rest[j] != g {
        assert rest[j] in multiset(s);
        var k :| 0 <= k < |s| && s[k] == rest[j];
      }
    }
  }

  /** sort_values: a sorted permutation. Ties keep no promised order. */
  function SortBy(o: Order, s: seq<Group>): (r: seq<Group>)
    ensures Sorted(o, r) && multiset(r) == multiset(s)
  {
    if s == [] then []
    else
      var n := |s| - 1;
      assert s == s[..n] + [s[n]];
      Insert(o, s[n], SortBy(o, s[..n]))
  }

  /** groupby(c)[col].sum().sort_values(ascending=False) */
  function Descending(rs: seq<Record>, c: string, col: string): seq<Group> {
    SortBy(TotalDescending, Grouped(rs, c, col))
  }

  /** groupby(c)[col].sum().sort_values(c) */
  function ByKey(rs: seq<Record>, c: string, col: string): seq<Group> {
    SortBy(KeyAscending, Grouped(rs, c, col))
  }

  /** ... .head(n) */
  function Head(s: seq<Group>, n: nat): (r: seq<Group>)
    ensures |r| == if n < |s| then n else |s|
    ensures r == s[..|r|]
  {
    s[..if n < |s| then n else |s|]
  }

  /** groupby(c)[col].sum().sort_values(ascending=False).head(n) */
  function TopN(rs: seq<Record>, c: string, col: string, n: nat): seq<Group> {
    Head(Descending(rs, c, col), n)
  }

  /** A sequence without repetitions holds each element at most once. */
  lemma {:induction false} DistinctCount<T>(s: seq<T>, x: T)
    requires Distinct(s)
    ensures multiset(s)[x] <= 1
  {
    if s != [] {
      var n := |s| - 1;
      DistinctCount(s[..n], x);
      assert s == s[..n] + [s[n]];
      assert s[n] !in s[..n];
    }
  }

  /** A permutation of a sequence without repetitions has none either. */
  lemma PermutationDistinct<T>(a: seq<T>, b: seq<T>)
    requires Distinct(a) && multiset(a) == multiset(b)
    ensures Distinct(b)
  {
    forall i, j | 0 <= i < j < |b| ensures b[i] != b[j] {
      if b[i] == b[j] {
        assert b == b[..j] + [b[j]] + b[j + 1..];
        assert b[i] in b[..j];
        assert multiset(b)[b[j]] >= 2;
        DistinctCount(a, b[j]);
      }
    }
  }

  /**
   * Any ordering of the grouped sums holds, once each, exactly the groups of the distinct
   * non-missing keys, each with its own rows' total.
   */
  lemma ReorderedGroups(rs: seq<Record>, c: string, col: string, s: seq<Group>)
    requires multiset(s) == multiset(Grouped(rs, c, col))
    ensures |s| == NUnique(rs, c)
    ensures forall g :: g in s <==> IsGroupOf(rs, c, col, g)
    ensures forall i, j :: 0 <= i < j < |s| ==> s[i].key != s[j].key
  {
    var gs := Grouped(rs, c, col);
    assert |s| == |multiset(s)| == |multiset(gs)| == |gs|;
    forall g ensures g in s <==> IsGroupOf(rs, c, col, g) {
      assert g in s <==> g in multiset(s);
      assert g in gs <==> g in multiset(gs);
    }
    PermutationDistinct(gs, s);
    forall i, j | 0 <= i < j < |s| ensures s[i].key != s[j].key {
      assert s[i] in s && s[j] in s;
    }
  }

  /**
   * groupby(c)[col].sum().sort_values(ascending=False).head(n): at most n groups (fewer only
   * when there are fewer keys), each a distinct non-missing key with the sum of its rows, in
   * non-increasing order of total. Ties among equal totals come in no promised order.
   */
  lemma TopNMeaning(rs: seq<Record>, c: string, col: string, n: nat)
    ensures var r := TopN(rs, c, col, n);
      && |r| == (if n < NUnique(rs, c) then n else NUnique(rs, c))
      && (forall i :: 0 <= i < |r| ==> IsGroupOf(rs, c, col, r[i]))
      && (forall i, j :: 0 <= i < j < |r| ==> r[i].key != r[j].key)
      && (forall i, j :: 0 <= i < j < |r| ==> r[i].total >= r[j].total)
  {
    var s := Descending(rs, c, col);
    ReorderedGroups(rs, c, col, s);
    assert forall i :: 0 <= i < |TopN(rs, c, col, n)| ==> TopN(rs, c, col, n)[i] == s[i];
  }

  /**
   * The cut keeps the largest groups: no key left out has a larger total than a key kept,
   * and when n covers every key, every key is kept.
   */
  lemma TopNKeepsLargest(rs: seq<Record>, c: string, col: string, n: nat)
    ensures var r := TopN(rs, c, col, n);
      && (forall v, i :: Occurs(rs, c, v) && v !in KeysOf(r) && 0 <= i < |r| ==> GroupSum(rs, c, v, col) <= r[i].total)
      && (n >= NUnique(rs, c) ==> forall v :: Occurs(rs, c, v) ==> v in KeysOf(r))
  {
    TopNBeatsLeftOut(rs, c, col, n);
    TopNCoversAll(rs, c, col, n);
  }

  /** No key left out by the cut has a larger total than a key kept. */
  lemma TopNBeatsLeftOut(rs: seq<Record>, c: string, col: string, n: nat)
    ensures var r := TopN(rs, c, col, n);
      forall v, i :: Occurs(rs, c, v) && v !in KeysOf(r) && 0 <= i < |r| ==> GroupSum(rs, c, v, col) <= r[i].total
  {
    var s := Descending(rs, c, col);
    var r := TopN(rs, c, col, n);
    assert forall i :: 0 <= i < |r| ==> r[i] == s[i];
    forall v, i | Occurs(rs, c, v) && v !in KeysOf(r) && 0 <= i < |r| ensures GroupSum(rs, c, v, col) <= r[i].total {
      var k := GroupIndex(rs, c, col, s, v);
    }
  }

  /** A cut of at least as many groups as there are keys keeps every key. */
  lemma TopNCoversAll(rs: seq<Record>, c: string, col: string, n: nat)
    ensures n >= NUnique(rs, c) ==> forall v :: Occurs(rs, c, v) ==> v in KeysOf(TopN(rs, c, col, n))
  {
    var s := Descending(rs, c, col);
    var r := TopN(rs, c, col, n);
    ReorderedGroups(rs, c, col, s);
    if n >= NUnique(rs, c) {
      forall v | Occurs(rs, c, v) ensures v in KeysOf(r) {
        var k := GroupIndex(rs, c, col, s, v);
        assert r[k] == s[k];
        assert KeysOf(r)[k] == v;
      }
    }
  }

  /** The keys of a sequence of groups, in order. */
  function KeysOf(gs: seq<Group>): (ks: seq<Value>)
    ensures |ks| == |gs| && forall i :: 0 <= i < |gs| ==> ks[i] == gs[i].key
  {
    seq(|gs|, i requires 0 <= i < |gs| => gs[i].key)
  }

  /** Where the group of an occurring key sits in a reordering of the grouped sums. */
  lemma GroupIndex(rs: seq<Record>, c: string, col: string, s: seq<Group>, v: Value) returns (k: int)
    requires multiset(s) == multiset(Grouped(rs, c, col)) && Occurs(rs, c, v)
    ensures 0 <= k < |s| && s[k] == Group(v, GroupSum(rs, c, v, col))
  {
    ReorderedGroups(rs, c, col, s);
    assert IsGroupOf(rs, c, col, Group(v, GroupSum(rs, c, v, col)));
    k :| 0 <= k < |s| && s[k] == Group(v, GroupSum(rs, c, v, col));
  }

  /**
   * groupby(c)[col].sum().sort_values(ascending=False), uncut: every distinct non-missing key
   * once, with its rows' total, in non-increasing order of total.
   */
  lemma DescendingMeaning(rs: seq<Record>, c: string, col: string)
    ensures var r := Descending(rs, c, col);
      && |r| == NUnique(rs, c)
      && (forall g :: g in r <==> IsGroupOf(rs, c, col, g))
      && (forall i, j :: 0 <= i < j < |r| ==> r[i].key != r[j].key)
      && (forall i, j :: 0 <= i < j < |r| ==> r[i].total >= r[j].total)
  {
    ReorderedGroups(rs, c, col, Descending(rs, c, col));
  }

  /**
   * r is a top-n ranking of the sums of col grouped by c: at most n groups (fewer only when
   * there are fewer keys), each a distinct non-missing key with its rows' total, in
   * non-increasing order of total, no key left out above a key kept, and every key kept when
   * n covers them all.
   */
  ghost predicate IsRanking(rs: seq<Record>, c: string, col: string, n: nat, r: seq<Group>) {
    && |r| == (if n < NUnique(rs, c) then n else NUnique(rs, c))
    && (forall i :: 0 <= i < |r| ==> IsGroupOf(rs, c, col, r[i]))
    && (forall i, j :: 0 <= i < j < |r| ==> r[i].key != r[j].key)
    && (forall i, j :: 0 <= i < j < |r| ==> r[i].total >= r[j].total)
    && (forall v, i :: Occurs(rs, c, v) && v !in KeysOf(r) && 0 <= i < |r| ==> GroupSum(rs, c, v, col) <= r[i].total)
    && (n >= NUnique(rs, c) ==> forall v :: Occurs(rs, c, v) ==> v in KeysOf(r))
  }

  /** r lists every non-missing key of c once, with its rows' total of col, keys increasing. */
  ghost predicate IsKeyOrdered(rs: seq<Record>, c: string, col: string, r: seq<Group>) {
    && |r| == NUnique(rs, c)
    && (forall g :: g in r <==> IsGroupOf(rs, c, col, g))
    && (forall i, j :: 0 <= i < j < |r| ==> r[i].key != r[j].key && ValueLe(r[i].key, r[j].key))
  }

  lemma TopNRanks(rs: seq<Record>, c: string, col: string, n: nat)
    ensures IsRanking(rs, c, col, n, TopN(rs, c, col, n))
  {
    TopNMeaning(rs, c, col, n);
    TopNKeepsLargest(rs, c, col, n);
  }

  /** The uncut descending order is the ranking of all keys. */
  lemma DescendingRanks(rs: seq<Record>, c: string, col: string)
    ensures IsRanking(rs, c, col, NUnique(rs, c), Descending(rs, c, col))
  {
    TopNRanks(rs, c, col, NUnique(rs, c));
    DescendingMeaning(rs, c, col);
    assert TopN(rs, c, col, NUnique(rs, c)) == Descending(rs, c, col);
  }

  /**
   * groupby(c)[col].sum().sort_values(c): every distinct non-missing key once, with its rows'
   * total, in increasing order of key.
   */
  lemma ByKeyOrders(rs: seq<Record>, c: string, col: string)
    ensures IsKeyOrdered(rs, c, col, ByKey(rs, c, col))
  {
    ReorderedGroups(rs, c, col, ByKey(rs, c, col));
  }

  /** The promotion split of a table's sales. */
  datatype PromoSplit = PromoSplit(total: real, promoted: real, share: real)

  /**
   * total = df["sales"].sum(), promoted = the sales of the rows with onpromotion > 0, and the
   * share is promoted / total * 100, or 0.0 when the total is not positive.
   */
  function Promotions(rs: seq<Record>): (p: PromoSplit)
    ensures p.total == SumBy(rs, "sales")
    ensures p.promoted == SumBy(Select(rs, Positive("onpromotion")), "sales")
  {
    var total := SumBy(rs, "sales");
    var promoted := SumBy(Select(rs, Positive("onpromotion")), "sales");
    PromoSplit(total, promoted, Share(promoted, total))
  }

  /** (promo_sales / total_sales * 100) if total_sales > 0 else 0.0 */
  function Share(part: real, whole: real): (s: real)
    ensures whole > 0.0 ==> s * whole == part * 100.0
    ensures whole <= 0.0 ==> s == 0.0
    ensures 0.0 <= part <= whole ==> 0.0 <= s <= 100.0
  {
    if whole > 0.0 then
      var q := part / whole;
      assert q * whole == part;
      assert 0.0 <= part <= whole ==> 0.0 <= q <= 1.0;
      q * 100.0
    else 0.0
  }

  /** The pie's second slice, total_sales - promo_sales. */
  function NotPromoted(p: PromoSplit): real {
    p.total - p.promoted
  }

  /**
   * The second slice is the sales of the rows not on promotion, so the two slices add up to
   * the total; the share is guarded against a zero total.
   */
  lemma PromotionsMeaning(rs: seq<Record>)
    ensures var p := Promotions(rs);
      && NotPromoted(p) == SumBy(Select(rs, Not(Positive("onpromotion"))), "sales")
      && p.promoted + NotPromoted(p) == SumBy(rs, "sales")
      && p.share == Share(p.promoted, p.total)
  {
    SumSplits(rs, Positive("onpromotion"), "sales");
  }

  /** A sum of non-negative cells is non-negative. */
  lemma {:induction false} SumNonNegative(rs: seq<Record>, c: string)
    requires NonNegative(rs, c)
    ensures SumBy(rs, c) >= 0.0
  {
    if rs != [] {
      SumNonNegative(rs[..|rs| - 1], c);
    }
  }

  /** The rows a mask keeps have non-negative cells when all rows do. */
  lemma SelectNonNegative(rs: seq<Record>, cond: Cond, c: string)
    requires NonNegative(rs, c)
    ensures NonNegative(Select(rs, cond), c)
  {
    var idx := WhereIndices(rs, cond);
    forall i | 0 <= i < |Select(rs, cond)| ensures NumberOf(Get(Select(rs, cond)[i], c)) >= 0.0 {
      assert Select(rs, cond)[i] == rs[idx[i]];
    }
  }

  /** With no negative sales, promoted sales lie between 0 and the total and the share between 0 and 100. */
  lemma ShareBounds(rs: seq<Record>)
    requires NonNegative(rs, "sales")
    ensures var p := Promotions(rs);
      0.0 <= p.promoted <= p.total && 0.0 <= p.share <= 100.0
  {
    var p := Promotions(rs);
    SumSplits(rs, Positive("onpromotion"), "sales");
    SelectNonNegative(rs, Positive("onpromotion"), "sales");
    SelectNonNegative(rs, Not(Positive("onpromotion")), "sales");
    SumNonNegative(Select(rs, Positive("onpromotion")), "sales");
    SumNonNegative(Select(rs, Not(Positive("onpromotion"))), "sales");
  }

  /** The sum of a sequence of reals. */
  function Total(xs: seq<real>): real {
    if xs == [] then 0.0 else Total(xs[..|xs| - 1]) + xs[|xs| - 1]
  }

  /** The trailing window of position i: the last w values up to it, or all of them near the start. */
  function Window(xs: seq<real>, i: int, w: nat): (ws: seq<real>)
    requires 1 <= w && 0 <= i < |xs|
    ensures |ws| == if i + 1 < w then i + 1 else w
    ensures ws == xs[i + 1 - |ws|..i + 1]
    ensures ws[|ws| - 1] == xs[i]
  {
    xs[if i + 1 < w then 0 else i + 1 - w..i + 1]
  }

  /** s.rolling(w, min_periods=1).mean(): each position's mean over its trailing window. */
  function RollingMean(xs: seq<real>, w: nat): (r: seq<real>)
    requires 1 <= w
    ensures |r| == |xs|
  {
    seq(|xs|, i requires 0 <= i < |xs| => Total(Window(xs, i, w)) / (|Window(xs, i, w)| as real))
  }

  /** A sum of values within [lo, hi] lies within |xs| * lo and |xs| * hi. */
  lemma {:induction false} TotalBounds(xs: seq<real>, lo: real, hi: real)
    requires forall i :: 0 <= i < |xs| ==> lo <= xs[i] <= hi
    ensures (|xs| as real) * lo <= Total(xs) <= (|xs| as real) * hi
  {
    if xs != [] {
      var n := |xs| - 1;
      TotalBounds(xs[..n], lo, hi);
      assert (|xs| as real) * lo == (n as real) * lo + lo;
      assert (|xs| as real) * hi == (n as real) * hi + hi;
    }
  }

  /**
   * Each mean times its window's length is the window's sum: the first w - 1 positions
   * average over all the values so far (min_periods=1), the later ones over the last w; the
   * first mean is the first value.
   */
  lemma RollingMeanMeaning(xs: seq<real>, w: nat)
    requires 1 <= w
    ensures var r := RollingMean(xs, w);
      && (forall i :: 0 <= i < |xs| ==> r[i] * (|Window(xs, i, w)| as real) == Total(Window(xs, i, w)))
      && (|xs| > 0 ==> r[0] == xs[0])
  {
    if |xs| > 0 {
      var ws := Window(xs, 0, w);
      assert ws == [xs[0]];
      assert Total(ws) == Total([]) + xs[0];
    }
  }

  /** A total can also be taken from the front: the first value plus the total of the rest. */
  lemma {:induction false} TotalFront(s: seq<real>)
    requires s != []
    ensures Total(s) == s[0] + Total(s[1..])
  {
    var n := |s| - 1;
    if n > 0 {
      TotalFront(s[..n]);
      assert s[..n][1..] == s[1..][..n - 1];
      assert s[1..][n - 1] == s[n];
    }
  }

  /** While fewer than w values exist, the window holds all of them. */
  lemma WindowFromStart(xs: seq<real>, i: int, w: nat)
    requires 1 <= w && 0 <= i < |xs| && i < w
    ensures Window(xs, i, w) == xs[..i + 1]
  {
  }

  /** Before the window is full, each day adds its value to the window's total. */
  lemma WindowGrows(xs: seq<real>, i: int, w: nat)
    requires 1 <= w && 0 < i < |xs| && i < w
    ensures Total(Window(xs, i, w)) == Total(Window(xs, i - 1, w)) + xs[i]
  {
    var ws, prev := Window(xs, i, w), Window(xs, i - 1, w);
    assert ws[..|ws| - 1] == prev;
  }

  /** Once the window is full, each day adds the new value and drops the one w days back. */
  lemma WindowShifts(xs: seq<real>, i: int, w: nat)
    requires 1 <= w <= i < |xs|
    ensures Total(Window(xs, i, w)) == Total(Window(xs, i - 1, w)) + xs[i] - xs[i - w]
  {
    var ws, prev := Window(xs, i, w), Window(xs, i - 1, w);
    var run := xs[i - w..i + 1];
    assert run[..w] == prev;
    assert Total(run) == Total(prev) + xs[i];
    TotalFront(run);
    assert run[1..] == ws;
  }

  /** Past the first w days, each trailing mean moves by the new value less the dropped one, over w. */
  lemma RollingMeanSlides(xs: seq<real>, w: nat, i: int)
    requires 1 <= w <= i < |xs|
    ensures RollingMean(xs, w)[i] == RollingMean(xs, w)[i - 1] + (xs[i] - xs[i - w]) / (w as real)
  {
    WindowShifts(xs, i, w);
    var a, b := Total(Window(xs, i - 1, w)), xs[i] - xs[i - w];
    var n := w as real;
    assert |Window(xs, i, w)| == w && |Window(xs, i - 1, w)| == w;
    assert (a + b) / n == a / n + b / n;
  }

  /** Every mean lies within the bounds of the values: the trailing mean never overshoots the data. */
  lemma RollingMeanBounds(xs: seq<real>, w: nat, lo: real, hi: real)
    requires 1 <= w
    requires forall i :: 0 <= i < |xs| ==> lo <= xs[i] <= hi
    ensures forall i :: 0 <= i < |xs| ==> lo <= RollingMean(xs, w)[i] <= hi
  {
    forall i | 0 <= i < |xs| ensures lo <= RollingMean(xs, w)[i] <= hi {
      WindowMeanBounds(xs, i, w, lo, hi);
    }
  }

  /** The mean of one trailing window lies within the values' bounds. */
  lemma WindowMeanBounds(xs: seq<real>, i: int, w: nat, lo: real, hi: real)
    requires 1 <= w && 0 <= i < |xs|
    requires forall k :: 0 <= k < |xs| ==> lo <= xs[k] <= hi
    ensures lo <= Total(Window(xs, i, w)) / (|Window(xs, i, w)| as real) <= hi
  {
    var ws := Window(xs, i, w);
    WindowWithin(xs, i, w, lo, hi);
    TotalBounds(ws, lo, hi);
    MeanWithin(Total(ws), |ws| as real, lo, hi);
  }

  /** Every value of a trailing window lies within the values' bounds. */
  lemma WindowWithin(xs: seq<real>, i: int, w: nat, lo: real, hi: real)
    requires 1 <= w && 0 <= i < |xs|
    requires forall k :: 0 <= k < |xs| ==> lo <= xs[k] <= hi
    ensures forall k :: 0 <= k < |Window(xs, i, w)| ==> lo <= Window(xs, i, w)[k] <= hi
  {
    var ws := Window(xs, i, w);
    forall k | 0 <= k < |ws| ensures lo <= ws[k] <= hi {
      assert ws[k] == xs[i + 1 - |ws| + k];
    }
  }

  /** A total between count * lo and count * hi has its mean between lo and hi. */
  lemma MeanWithin(total: real, count: real, lo: real, hi: real)
    requires count > 0.0 && count * lo <= total <= count * hi
    ensures lo <= total / count <= hi
  {
    var m := total / count;
    assert m * count == total;
  }
}
