/**
 The orders that dexlayout chooses from a profile for class data, string data and code items.
 Only the order in which a section's items are written changes; each result is a permutation.
 */
module HotnessLayout {
  import opened Leb128
  import opened DexIr

  const FLAG_HOT := 0x1
  const FLAG_STARTUP := 0x2

  /** Profiled classes by type index, and flags by method index; unprofiled methods have none. */
  datatype Profile = Profile(classes: set<nat>, methods: map<nat, nat>)

  function Flags(p: Profile, index: nat): nat {
    if index in p.methods then p.methods[index] else 0
  }

  // ---- class data

  /** The elements with the property, then the others, each in their old order. */
  function Filter(s: seq<nat>, keep: nat -> bool): (r: seq<nat>)
    ensures forall x :: x in r <==> x in s && keep(x)
  {
    if s == [] then []
    else
      var n := |s| - 1;
      Filter(s[..n], keep) + if keep(s[n]) then [s[n]] else []
  }

  /** Class data as it is first used, without repetitions. */
  function FirstUses(s: seq<Option<nat>>): (r: seq<nat>)
    ensures forall x :: x in r <==> Some(x) in s
    ensures forall i, j :: 0 <= i < j < |r| ==> r[i] != r[j]
  {
    if s == [] then []
    else
      var n := |s| - 1;
      var r := FirstUses(s[..n]);
      if s[n].Some? && s[n].value !in r then r + [s[n].value] else r
  }

  ghost predicate Distinct(s: seq<nat>) {
    forall i, j :: 0 <= i < j < |s| ==> s[i] != s[j]
  }

  function Below(n: nat): (s: set<nat>)
    ensures |s| == n && forall x: nat :: x in s <==> x < n
  {
    if n == 0 then {} else Below(n - 1) + {n - 1}
  }

  function Elements(s: seq<nat>): set<nat> {
    set x: nat | x in s
  }

  lemma {:induction false} DistinctIsAtMost(s: seq<nat>, n: nat)
    requires Distinct(s) && forall x :: x in s ==> x < n
    ensures |s| <= n
    ensures |s| == n <==> forall x: nat :: x < n ==> x in s
  {
    DistinctCount(s);
    SubsetCount(Elements(s), Below(n));
    if forall x: nat :: x < n ==> x in s {
      assert Elements(s) == Below(n);
    } else {
      var x: nat :| x < n && x !in s;
      assert x in Below(n) && x !in Elements(s);
    }
  }

  lemma {:induction false} DistinctCount(s: seq<nat>)
    requires Distinct(s)
    ensures |Elements(s)| == |s|
  {
    if s != [] {
      var n := |s| - 1;
      DistinctCount(s[..n]);
      assert s[n] !in s[..n];
      assert Elements(s) == Elements(s[..n]) + {s[n]};
    }
  }

  lemma {:induction false} SubsetCount(a: set<nat>, b: set<nat>)
    requires a <= b
    ensures |a| <= |b| && (|a| == |b| <==> a == b)
  {
    if a != {} {
      var x :| x in a;
      SubsetCount(a - {x}, b - {x});
      assert a == (a - {x}) + {x} && b == (b - {x}) + {x};
    }
  }

  /** Distinct numbers below n that include them all are a permutation. */
  lemma {:induction false} IsPermutation(s: seq<nat>, n: nat)
    requires Distinct(s) && (forall x :: x in s ==> x < n) && (forall x: nat :: x < n ==> x in s)
    ensures Permutation(s, n)
  {
    DistinctIsAtMost(s, n);
    assert forall i :: 0 <= i < |s| ==> s[i] in s;
  }

  function InProfile(ir: Ir, p: Profile, wanted: bool): nat -> bool {
    (i: nat) => i < |ir.classDefs| && (ir.classDefs[i].classType in p.classes) == wanted
  }

  function ClassOrder(ir: Ir, p: Profile): seq<nat> {
    var all := Identity(|ir.classDefs|);
    Filter(all, InProfile(ir, p, true)) + Filter(all, InProfile(ir, p, false))
  }

  function DataOf(ir: Ir, classes: seq<nat>): (r: seq<Option<nat>>)
    ensures |r| == |classes|
  {
    seq(|classes|, i requires 0 <= i < |classes| =>
      if classes[i] < |ir.classDefs| then ir.classDefs[classes[i]].classData else None)
  }

  /** Every class data item belongs to some class of the file. */
  ghost predicate ClassDatasAreUsed(ir: Ir) {
    && (forall c :: 0 <= c < |ir.classDefs| && ir.classDefs[c].classData.Some? ==>
        ir.classDefs[c].classData.value < |ir.classDatas|)
    && (forall d: nat :: d < |ir.classDatas| ==>
        exists c :: 0 <= c < |ir.classDefs| && ir.classDefs[c].classData == Some(d))
  }

  lemma {:induction false} IdentityHas(n: nat, x: nat)
    ensures x in Identity(n) <==> x < n
  {
    if n > 0 {
      IdentityHas(n - 1, x);
    }
  }

  lemma {:induction false} ClassOrderHasAll(ir: Ir, p: Profile, c: nat)
    ensures c in ClassOrder(ir, p) <==> c < |ir.classDefs|
  {
    hide Filter, Identity, Permutation;
    IdentityHas(|ir.classDefs|, c);
  }

  lemma {:induction false} DataOfHas(ir: Ir, classes: seq<nat>, d: nat)
    ensures Some(d) in DataOf(ir, classes) <==>
            exists c :: c in classes && c < |ir.classDefs| && ir.classDefs[c].classData == Some(d)
  {
    var data := DataOf(ir, classes);
    if Some(d) in data {
      var i :| 0 <= i < |data| && data[i] == Some(d);
      assert classes[i] in classes;
    }
    if c :| c in classes && c < |ir.classDefs| && ir.classDefs[c].classData == Some(d) {
      var i :| 0 <= i < |classes| && classes[i] == c;
      assert data[i] == Some(d);
    }
  }

  /** All class data items are used, so their first uses list each of them once. */
  lemma {:induction false} FirstUsesArePermutation(ir: Ir, p: Profile)
    requires ClassDatasAreUsed(ir)
    ensures Permutation(FirstUses(DataOf(ir, ClassOrder(ir, p))), |ir.classDatas|)
  {
    hide ClassOrder, DataOf, FirstUses;
    var classes := ClassOrder(ir, p);
    var r := FirstUses(DataOf(ir, classes));
    forall d: nat
      ensures d in r <==> d < |ir.classDatas|
    {
      DataOfHas(ir, classes, d);
      forall c
        ensures c in classes <==> 0 <= c < |ir.classDefs|
      {
        if 0 <= c { ClassOrderHasAll(ir, p, c); }
      }
    }
    IsPermutation(r, |ir.classDatas|);
  }

  /** Classes of the profile come first, and both groups keep their order. */
  method OrderClasses(ir: Ir, p: Profile) returns (order: seq<nat>)
    ensures order == ClassOrder(ir, p)
  {
    hide Filter, InProfile;
    var n := |ir.classDefs|;
    order := [];
    NothingToFilter(InProfile(ir, p, true));
    NothingToFilter(InProfile(ir, p, false));
    for i := 0 to n
      invariant order == Filter(Identity(i), InProfile(ir, p, true))
    {
      FilterMore(ir, p, i, true);
      if ir.classDefs[i].classType in p.classes {
        order := order + [i];
      }
    }
    ghost var first := order;
    for i := 0 to n
      invariant order == first + Filter(Identity(i), InProfile(ir, p, false))
    {
      FilterMore(ir, p, i, false);
      if ir.classDefs[i].classType !in p.classes {
        order := order + [i];
      }
    }
  }

  lemma {:induction false} NothingToFilter(keep: nat -> bool)
    ensures Filter(Identity(0), keep) == []
  {
  }

  lemma {:induction false} FilterMore(ir: Ir, p: Profile, i: nat, wanted: bool)
    requires i < |ir.classDefs|
    ensures var keep := InProfile(ir, p, wanted);
            Filter(Identity(i + 1), keep) ==
            Filter(Identity(i), keep) + if (ir.classDefs[i].classType in p.classes) == wanted then [i] else []
  {
    hide Filter, Identity;
    FilterStep(i, InProfile(ir, p, wanted));
  }

  lemma {:induction false} FilterStep(i: nat, keep: nat -> bool)
    ensures Filter(Identity(i + 1), keep) == Filter(Identity(i), keep) + if keep(i) then [i] else []
  {
    var all := Identity(i + 1);
    assert |all| == i + 1 && all[..i] == Identity(i) && all[i] == i;
  }

  /** Overwrites the vector of class data in order of first use. No write falls outside it, and all of
      it is overwritten. */
  method LayoutClassData(ir: Ir, p: Profile, current: seq<nat>) returns (order: seq<nat>)
    requires ClassDatasAreUsed(ir) && |current| == |ir.classDatas|
    ensures order == FirstUses(DataOf(ir, ClassOrder(ir, p))) && Permutation(order, |ir.classDatas|)
    ensures forall i, j :: 0 <= i < j < |order| ==> DataGoesBefore(ir, p, order[i], order[j])
  {
    hide ClassOrder, Permutation, FirstUses, DataOf, ClassDatasAreUsed, DataGoesBefore;
    var classes := OrderClasses(ir, p);
    FirstUsesArePermutation(ir, p);
    NothingUsed();
    ghost var data := DataOf(ir, classes);
    UsesInRange(ir, classes);
    order := current;
    var visited := {};
    var index := 0;
    for k := 0 to |classes|
      invariant index <= |order| == |ir.classDatas| && order[..index] == FirstUses(data[..k])
      invariant visited == Elements(FirstUses(data[..k]))
    {
      ClassInRange(ir, p, classes, k);
      FirstUsesMore(data, k);
      var classData := ir.classDefs[classes[k]].classData;
      if classData.Some? && classData.value !in visited {
        visited := visited + {classData.value};
        RoomForMore(ir, data, k);
        Overwritten(order, index, classData.value);
        order := order[index := classData.value];
        index := index + 1;
      }
    }
    assert data[..|classes|] == data;
    PermutationLength(ir, p);
    assert order[..index] == order;
    forall i, j | 0 <= i < j < |order|
      ensures DataGoesBefore(ir, p, order[i], order[j])
    {
      FirstUsesGoBefore(ir, p, i, j);
    }
  }

  lemma {:induction false} PermutationLength(ir: Ir, p: Profile)
    requires Permutation(FirstUses(DataOf(ir, ClassOrder(ir, p))), |ir.classDatas|)
    ensures |FirstUses(DataOf(ir, ClassOrder(ir, p)))| == |ir.classDatas|
  {
  }

  lemma {:induction false} ClassInRange(ir: Ir, p: Profile, classes: seq<nat>, k: nat)
    requires classes == ClassOrder(ir, p) && k < |classes|
    ensures classes[k] < |ir.classDefs| && DataOf(ir, classes)[k] == ir.classDefs[classes[k]].classData
  {
    hide ClassOrder;
    ClassOrderHasAll(ir, p, classes[k]);
  }

  lemma {:induction false} NothingUsed()
    ensures FirstUses([]) == []
  {
  }

  lemma {:induction false} FirstUsesMore(data: seq<Option<nat>>, k: nat)
    requires k < |data|
    ensures var r := FirstUses(data[..k]);
            FirstUses(data[..k + 1]) == if data[k].Some? && data[k].value !in r then r + [data[k].value] else r
  {
    assert data[..k + 1][..k] == data[..k];
  }

  lemma {:induction false} Overwritten(v: seq<nat>, index: nat, x: nat)
    requires index < |v|
    ensures v[index := x][..index + 1] == v[..index] + [x]
  {
  }

  lemma {:induction false} UsesInRange(ir: Ir, classes: seq<nat>)
    requires ClassDatasAreUsed(ir)
    ensures forall d :: Some(d) in DataOf(ir, classes) ==> d < |ir.classDatas|
  {
  }

  lemma {:induction false} RoomForMore(ir: Ir, data: seq<Option<nat>>, k: nat)
    requires k < |data| && data[k].Some? && data[k].value !in FirstUses(data[..k])
    requires forall d :: Some(d) in data ==> d < |ir.classDatas|
    ensures |FirstUses(data[..k])| < |ir.classDatas|
  {
    var more := FirstUses(data[..k + 1]);
    assert data[..k + 1][..k] == data[..k];
    assert forall x :: x in more ==> Some(x) in data;
    DistinctIsAtMost(more, |ir.classDatas|);
  }

  lemma {:induction false} FirstUsesAppend(a: seq<Option<nat>>, b: seq<Option<nat>>)
    ensures FirstUses(a) <= FirstUses(a + b)
  {
    if b == [] {
      assert a + b == a;
    } else {
      var n := |b| - 1;
      FirstUsesAppend(a, b[..n]);
      assert (a + b)[..|a + b| - 1] == a + b[..n];
    }
  }

  ghost predicate UsedByProfile(ir: Ir, p: Profile, d: nat) {
    exists c :: 0 <= c < |ir.classDefs| && ir.classDefs[c].classData == Some(d)
        && ir.classDefs[c].classType in p.classes
  }

  lemma {:induction false} DataOfAppend(ir: Ir, a: seq<nat>, b: seq<nat>)
    ensures DataOf(ir, a + b) == DataOf(ir, a) + DataOf(ir, b)
  {
  }

  lemma {:induction false} ProfiledUses(ir: Ir, p: Profile, d: nat)
    ensures d in FirstUses(DataOf(ir, Filter(Identity(|ir.classDefs|), InProfile(ir, p, true)))) <==>
        UsedByProfile(ir, p, d)
  {
    hide FirstUses, DataOf, Filter, Identity;
    var classes := Filter(Identity(|ir.classDefs|), InProfile(ir, p, true));
    DataOfHas(ir, classes, d);
    forall c: nat
      ensures c in classes <==> c < |ir.classDefs| && ir.classDefs[c].classType in p.classes
    {
      IdentityHas(|ir.classDefs|, c);
    }
  }

  /** Classes of the profile before others, and otherwise by index. */
  ghost predicate ClassGoesBefore(ir: Ir, p: Profile, a: nat, b: nat) {
    && a < |ir.classDefs| && b < |ir.classDefs|
    && if ir.classDefs[a].classType in p.classes <==> ir.classDefs[b].classType in p.classes then a < b
       else ir.classDefs[a].classType in p.classes
  }

  ghost predicate UsesData(ir: Ir, c: nat, d: nat) {
    c < |ir.classDefs| && ir.classDefs[c].classData == Some(d)
  }

  /** Some class uses d before any class uses e. */
  ghost predicate DataGoesBefore(ir: Ir, p: Profile, d: nat, e: nat) {
    exists a :: UsesData(ir, a, d) && forall b :: UsesData(ir, b, e) ==> ClassGoesBefore(ir, p, a, b)
  }

  /** Elements come in the order of their first use. */
  lemma {:induction false} FirstUsesInOrder(s: seq<Option<nat>>, i: nat, j: nat) returns (k: nat)
    requires i < j < |FirstUses(s)|
    ensures k < |s| && s[k] == Some(FirstUses(s)[i]) && forall q :: 0 <= q <= k ==> s[q] != Some(FirstUses(s)[j])
  {
    var n := |s| - 1;
    var r := FirstUses(s[..n]);
    if j < |r| {
      k := FirstUsesInOrder(s[..n], i, j);
    } else {
      assert Some(r[i]) in s[..n];
      k :| 0 <= k < n && s[k] == Some(r[i]);
      assert forall q :: 0 <= q < n && s[q] == Some(FirstUses(s)[j]) ==> Some(FirstUses(s)[j]) in s[..n];
    }
  }

  ghost predicate Ascends(f: seq<nat>, n: nat, keep: nat -> bool) {
    && (forall i, j :: 0 <= i < j < |f| ==> f[i] < f[j])
    && (forall i :: 0 <= i < |f| ==> f[i] < n && keep(f[i]))
  }

  lemma {:induction false} FilterAscends(n: nat, keep: nat -> bool)
    ensures Ascends(Filter(Identity(n), keep), n, keep)
  {
    hide Filter, Identity;
    if n == 0 {
      NothingToFilter(keep);
    } else {
      hide Ascends;
      FilterAscends(n - 1, keep);
      FilterStep(n - 1, keep);
      AscendMore(Filter(Identity(n - 1), keep), n - 1, keep);
    }
  }

  lemma {:induction false} AscendMore(f: seq<nat>, n: nat, keep: nat -> bool)
    requires Ascends(f, n, keep)
    ensures Ascends(f + if keep(n) then [n] else [], n + 1, keep)
  {
  }

  lemma {:induction false} ClassOrderAscends(ir: Ir, p: Profile, i: nat, j: nat)
    requires i < j < |ClassOrder(ir, p)|
    ensures ClassGoesBefore(ir, p, ClassOrder(ir, p)[i], ClassOrder(ir, p)[j])
  {
    hide Filter, Identity;
    var all := Identity(|ir.classDefs|);
    FilterAscends(|ir.classDefs|, InProfile(ir, p, true));
    FilterAscends(|ir.classDefs|, InProfile(ir, p, false));
    var a, b := Filter(all, InProfile(ir, p, true)), Filter(all, InProfile(ir, p, false));
    assert ClassOrder(ir, p) == a + b;
    if i < |a| {
      assert InProfile(ir, p, true)(a[i]);
    } else {
      assert InProfile(ir, p, false)(b[i - |a|]);
    }
    if j < |a| {
      assert InProfile(ir, p, true)(a[j]);
    } else {
      assert InProfile(ir, p, false)(b[j - |a|]);
    }
  }

  lemma {:induction false} FirstUsesGoBefore(ir: Ir, p: Profile, i: nat, j: nat)
    requires i < j < |FirstUses(DataOf(ir, ClassOrder(ir, p)))|
    ensures var r := FirstUses(DataOf(ir, ClassOrder(ir, p)));
            DataGoesBefore(ir, p, r[i], r[j])
  {
    hide FirstUses, ClassOrder, ClassGoesBefore;
    var classes := ClassOrder(ir, p);
    var data := DataOf(ir, classes);
    var d, e := FirstUses(data)[i], FirstUses(data)[j];
    var k := FirstUsesInOrder(data, i, j);
    assert UsesData(ir, classes[k], d);
    forall b | UsesData(ir, b, e)
      ensures ClassGoesBefore(ir, p, classes[k], b)
    {
      ClassOrderHasAll(ir, p, b);
      var q :| 0 <= q < |classes| && classes[q] == b;
      assert data[q] == Some(e);
      ClassOrderAscends(ir, p, k, q);
    }
  }

  /** Class data of profiled classes comes before all other class data. */
  lemma {:induction false} ProfileComesFirst(ir: Ir, p: Profile, i: nat, j: nat)
    requires i < j < |FirstUses(DataOf(ir, ClassOrder(ir, p)))|
    requires UsedByProfile(ir, p, FirstUses(DataOf(ir, ClassOrder(ir, p)))[j])
    ensures UsedByProfile(ir, p, FirstUses(DataOf(ir, ClassOrder(ir, p)))[i])
  {
    hide FirstUses, DataOf, Filter, Identity, UsedByProfile;
    var all := Identity(|ir.classDefs|);
    var a, b := Filter(all, InProfile(ir, p, true)), Filter(all, InProfile(ir, p, false));
    var first, r := FirstUses(DataOf(ir, a)), FirstUses(DataOf(ir, ClassOrder(ir, p)));
    DataOfAppend(ir, a, b);
    FirstUsesAppend(DataOf(ir, a), DataOf(ir, b));
    ProfiledUses(ir, p, r[j]);
    var k :| 0 <= k < |first| && first[k] == r[j];
    assert r[k] == first[k];
    assert first[i] == r[i] && r[i] in first;
    ProfiledUses(ir, p, r[i]);
  }

  // ---- sorting

  /** Strictly ascending by rank, and among equals by position: what a stable sort leaves. */
  ghost predicate StablySorted(ranks: seq<nat>, r: seq<nat>) {
    && (forall i :: 0 <= i < |r| ==> r[i] < |ranks|)
    && (forall i, j :: 0 <= i < j < |r| ==> Before(ranks, r[i], r[j]))
  }

  ghost predicate Before(ranks: seq<nat>, x: nat, y: nat) {
    x < |ranks| && y < |ranks| && (ranks[x] < ranks[y] || (ranks[x] == ranks[y] && x < y))
  }

  lemma {:induction false} InsertStably(ranks: seq<nat>, r: seq<nat>, k: nat, at: nat)
    requires StablySorted(ranks, r) && k < |ranks| && at <= |r| && (forall x :: x in r <==> 0 <= x < k)
    requires (forall i :: 0 <= i < at ==> ranks[r[i]] <= ranks[k]) && (at < |r| ==> ranks[r[at]] > ranks[k])
    ensures var r' := r[..at] + [k] + r[at..];
            StablySorted(ranks, r') && forall x :: x in r' <==> 0 <= x < k + 1
  {
    var r' := r[..at] + [k] + r[at..];
    forall i | 0 <= i < |r|
      ensures r[i] < k
    {
      assert r[i] in r;
    }
    forall i | at <= i < |r|
      ensures ranks[r[i]] > ranks[k]
    {
      assert i == at || Before(ranks, r[at], r[i]);
    }
    forall i, j | 0 <= i < j < |r'|
      ensures Before(ranks, r'[i], r'[j])
    {
    }
    assert r'[at] == k;
    forall x
      ensures x in r' <==> x in r || x == k
    {
      assert r == r[..at] + r[at..];
    }
  }

  lemma {:induction false} SortedIsPermutation(ranks: seq<nat>, r: seq<nat>)
    requires StablySorted(ranks, r) && forall x :: x in r <==> 0 <= x < |ranks|
    ensures Permutation(r, |ranks|)
  {
    forall i, j | 0 <= i < j < |r|
      ensures r[i] != r[j]
    {
      assert Before(ranks, r[i], r[j]);
    }
    IsPermutation(r, |ranks|);
  }

  method StableSort(ranks: seq<nat>) returns (r: seq<nat>)
    ensures StablySorted(ranks, r) && Permutation(r, |ranks|)
  {
    hide StablySorted, Permutation;
    r := [];
    NothingSorted(ranks);
    for k := 0 to |ranks|
      invariant StablySorted(ranks, r) && forall x :: x in r <==> 0 <= x < k
    {
      SortedInRange(ranks, r);
      var at := 0;
      while at < |r| && ranks[r[at]] <= ranks[k]
        invariant at <= |r| && forall i :: 0 <= i < at ==> ranks[r[i]] <= ranks[k]
      {
        at := at + 1;
      }
      InsertStably(ranks, r, k, at);
      r := r[..at] + [k] + r[at..];
    }
    SortedIsPermutation(ranks, r);
  }

  lemma {:induction false} NothingSorted(ranks: seq<nat>)
    ensures StablySorted(ranks, [])
  {
  }

  lemma {:induction false} SortedInRange(ranks: seq<nat>, r: seq<nat>)
    requires StablySorted(ranks, r)
    ensures forall i :: 0 <= i < |r| ==> r[i] < |ranks|
  {
  }

  // ---- string data

  function StringRanks(hot: seq<bool>, shorty: seq<bool>): (r: seq<nat>)
    requires |hot| == |shorty|
    ensures |r| == |hot|
  {
    seq(|hot|, i requires 0 <= i < |hot| => (if hot[i] then 2 else 0) + (if shorty[i] then 1 else 0))
  }

  /** Cold strings before hot ones, shorties last in each group, and otherwise by index. */
  ghost predicate StringsOrdered(hot: seq<bool>, shorty: seq<bool>, ids: seq<nat>)
    requires |hot| == |shorty|
  {
    forall i, j :: 0 <= i < j < |ids| ==> StringBefore(hot, shorty, ids[i], ids[j])
  }

  ghost predicate StringBefore(hot: seq<bool>, shorty: seq<bool>, a: nat, b: nat)
    requires |hot| == |shorty|
  {
    && a < |hot| && b < |hot|
    && (if hot[a] != hot[b] then hot[b]
        else if shorty[a] != shorty[b] then shorty[b]
        else a < b)
  }

  /** Places the data of the sorted strings one after the other. The vector keeps its length exactly when
      there are as many string ids as string data items. */
  method PlaceStrings(ir: Ir, hot: seq<bool>, shorty: seq<bool>, current: seq<nat>) returns (order: seq<nat>,
                      ids: seq<nat>)
    requires |hot| == |shorty| == |ir.stringIds| == |ir.stringDatas| == |current|
    ensures Permutation(ids, |ir.stringIds|) && StringsOrdered(hot, shorty, ids)
    ensures |order| == |ids| && forall i :: 0 <= i < |ids| ==> order[i] == ir.stringIds[ids[i]]
    ensures Permutation(order, |ir.stringDatas|) <==> Permutation(ir.stringIds, |ir.stringDatas|)
  {
    hide StringBefore, StringRanks, Permutation;
    ids := StableSort(StringRanks(hot, shorty));
    RanksOrder(hot, shorty, ids);
    Inside(ids, |ir.stringIds|);
    order := current;
    for k := 0 to |ids|
      invariant |order| == |ids| && forall i :: 0 <= i < k ==> order[i] == ir.stringIds[ids[i]]
    {
      order := order[k := ir.stringIds[ids[k]]];
    }
    Composed(ir.stringIds, ids, order);
  }

  lemma {:induction false} Inside(r: seq<nat>, n: nat)
    requires Permutation(r, n)
    ensures |r| == n && forall i :: 0 <= i < n ==> r[i] < n
  {
  }

  lemma {:induction false} RanksOrder(hot: seq<bool>, shorty: seq<bool>, ids: seq<nat>)
    requires |hot| == |shorty| && StablySorted(StringRanks(hot, shorty), ids)
    ensures StringsOrdered(hot, shorty, ids)
  {
    forall i, j | 0 <= i < j < |ids|
      ensures StringBefore(hot, shorty, ids[i], ids[j])
    {
      assert Before(StringRanks(hot, shorty), ids[i], ids[j]);
    }
  }

  lemma {:induction false} PlaceOf(r: seq<nat>, n: nat, x: nat) returns (i: nat)
    requires Permutation(r, n) && x < n
    ensures i < |r| && r[i] == x
  {
    assert x in r;
    i :| 0 <= i < |r| && r[i] == x;
  }

  /** Reordering a list by a permutation neither makes nor breaks a permutation. */
  lemma {:induction false} Composed(s: seq<nat>, r: seq<nat>, t: seq<nat>)
    requires Permutation(r, |s|) && |t| == |r| && forall i :: 0 <= i < |r| ==> t[i] == s[r[i]]
    ensures Permutation(t, |s|) <==> Permutation(s, |s|)
  {
    if Permutation(s, |s|) {
      ComposedForwards(s, r, t);
    }
    if Permutation(t, |s|) {
      ComposedBackwards(s, r, t);
    }
  }

  lemma {:induction false} ComposedForwards(s: seq<nat>, r: seq<nat>, t: seq<nat>)
    requires Permutation(r, |s|) && Permutation(s, |s|) && |t| == |r| && forall i :: 0 <= i < |r| ==> t[i] == s[r[i]]
    ensures Permutation(t, |s|)
  {
    forall x: nat | x < |s|
      ensures x in t
    {
      var k := PlaceOf(s, |s|, x);
      var i := PlaceOf(r, |s|, k);
      assert t[i] == x;
    }
    forall i, j | 0 <= i < j < |t|
      ensures t[i] != t[j]
    {
      assert r[i] != r[j];
    }
  }

  lemma {:induction false} ComposedBackwards(s: seq<nat>, r: seq<nat>, t: seq<nat>)
    requires Permutation(r, |s|) && Permutation(t, |s|) && |t| == |r| && forall i :: 0 <= i < |r| ==> t[i] == s[r[i]]
    ensures Permutation(s, |s|)
  {
    forall x: nat | x < |s|
      ensures x in s
    {
      var i := PlaceOf(t, |s|, x);
      assert s[r[i]] == x;
    }
    forall i, j | 0 <= i < j < |s|
      ensures s[i] != s[j]
    {
      var a := PlaceOf(r, |s|, i);
      var b := PlaceOf(r, |s|, j);
      assert t[a] != t[b];
    }
    forall k | 0 <= k < |s|
      ensures s[k] < |s|
    {
      var a := PlaceOf(r, |s|, k);
      assert t[a] == s[k];
    }
  }

  // ---- code items

  /** From most to least wanted; merging keeps the more wanted. */
  datatype LayoutType = Hot | SometimesUsed | StartupOnly | UsedOnce | Unused

  function Rank(t: LayoutType): nat {
    match t case Hot => 0 case SometimesUsed => 1 case StartupOnly => 2 case UsedOnce => 3 case Unused => 4
  }

  function Merge(a: LayoutType, b: LayoutType): LayoutType {
    if Rank(b) < Rank(a) then b else a
  }

  predicate IsClassInitializer(accessFlags: nat) {
    (accessFlags / 0x1_0000) % 2 == 1 && (accessFlags / 0x8) % 2 == 1
  }

  function LayoutOf(p: Profile, c: ClassDef, m: Method): LayoutType {
    var flags := Flags(p, m.index);
    var clinit := IsClassInitializer(m.accessFlags);
    if flags % 2 == FLAG_HOT then Hot
    else if (c.classType in p.classes && clinit) || flags == FLAG_STARTUP then StartupOnly
    else if clinit then UsedOnce
    else if flags != 0 then SometimesUsed
    else Unused
  }

  /** One mention of a code item by a method. */
  datatype Use = Use(code: nat, layout: LayoutType)

  function MethodUses(p: Profile, c: ClassDef, methods: seq<Method>): seq<Use> {
    if methods == [] then []
    else
      var m := methods[0];
      (if m.code.Some? then [Use(m.code.value, LayoutOf(p, c, m))] else []) + MethodUses(p, c, methods[1..])
  }

  function ClassUses(ir: Ir, p: Profile, classes: seq<ClassDef>, direct: bool): seq<Use> {
    if classes == [] then []
    else MethodUses(p, classes[0], MethodsIn(ir, classes[0], direct)) + ClassUses(ir, p, classes[1..], direct)
  }

  /** All mentions, in the order they are visited: direct methods of all classes, then virtual ones. */
  function Uses(ir: Ir, p: Profile): seq<Use> {
    ClassUses(ir, p, ir.classDefs, true) + ClassUses(ir, p, ir.classDefs, false)
  }

  /** Each mentioned code item has the most wanted layout of its mentions. */
  ghost predicate Merged(uses: seq<Use>, layout: map<nat, LayoutType>) {
    && (forall i :: 0 <= i < |uses| ==> uses[i].code in layout && Rank(layout[uses[i].code]) <= Rank(uses[i].layout))
    && (forall c :: c in layout ==> Use(c, layout[c]) in uses)
  }

  // ---- how much a code item is wanted

  ghost predicate Initializes(m: Method) {
    (m.accessFlags / 0x1_0000) % 2 == 1 && (m.accessFlags / 8) % 2 == 1
  }

  /** Hot methods, then those that run beyond startup, then what runs at startup only, then other
      initialisers, then the rest. */
  ghost predicate WantedAt(p: Profile, c: ClassDef, m: Method, level: nat) {
    || (m.index in p.methods && p.methods[m.index] % 2 == 1)
    || (level >= 1 && m.index in p.methods && p.methods[m.index] != 0 && p.methods[m.index] != 2 && !Initializes(m))
    || (level >= 2 && m.index in p.methods && p.methods[m.index] == 2)
    || (level >= 2 && c.classType in p.classes && Initializes(m))
    || (level >= 3 && Initializes(m))
    || level >= 4
  }

  /** Some method with this code is wanted that much. */
  ghost predicate Wanted(ir: Ir, p: Profile, code: nat, level: nat) {
    exists c, m :: Declares(ir, c, m) && m.code == Some(code) && WantedAt(p, c, m, level)
  }

  lemma {:induction false} LayoutIsLevel(p: Profile, c: ClassDef, m: Method, level: nat)
    ensures Rank(LayoutOf(p, c, m)) <= level <==> WantedAt(p, c, m, level)
  {
  }

  lemma {:induction false} MethodUsesHas(p: Profile, c: ClassDef, methods: seq<Method>, u: Use)
    ensures u in MethodUses(p, c, methods) <==>
            exists m :: m in methods && m.code == Some(u.code) && LayoutOf(p, c, m) == u.layout
  {
    hide LayoutOf;
    if methods != [] {
      MethodUsesHas(p, c, methods[1..], u);
      var m := methods[0];
      if m.code == Some(u.code) && LayoutOf(p, c, m) == u.layout {
        assert m in methods;
        assert u in MethodUses(p, c, methods);
      } else {
        assert u in MethodUses(p, c, methods) <==> u in MethodUses(p, c, methods[1..]);
        assert forall x :: x in methods <==> x == m || x in methods[1..];
      }
    }
  }

  lemma {:induction false} ClassUsesHas(ir: Ir, p: Profile, classes: seq<ClassDef>, direct: bool, u: Use)
    ensures u in ClassUses(ir, p, classes, direct) <==>
            exists c :: c in classes && u in MethodUses(p, c, MethodsIn(ir, c, direct))
  {
    hide MethodUses;
    if classes != [] {
      ClassUsesHas(ir, p, classes[1..], direct, u);
      var c := classes[0];
      assert u in ClassUses(ir, p, classes, direct) <==>
          u in MethodUses(p, c, MethodsIn(ir, c, direct)) || u in ClassUses(ir, p, classes[1..], direct);
      assert forall x :: x in classes <==> x == c || x in classes[1..];
    }
  }

  /** The mentions are those by the methods of the file. */
  lemma {:induction false} UsesHas(ir: Ir, p: Profile, u: Use)
    ensures u in Uses(ir, p) <==>
            exists c, m :: Declares(ir, c, m) && m.code == Some(u.code) && LayoutOf(p, c, m) == u.layout
  {
    hide MethodUses, ClassUses, LayoutOf;
    ClassUsesHas(ir, p, ir.classDefs, true, u);
    ClassUsesHas(ir, p, ir.classDefs, false, u);
    forall c, direct
      ensures u in MethodUses(p, c, MethodsIn(ir, c, direct)) <==>
          exists m :: m in MethodsIn(ir, c, direct) && m.code == Some(u.code) && LayoutOf(p, c, m) == u.layout
    {
      MethodUsesHas(p, c, MethodsIn(ir, c, direct), u);
    }
    forall c, m
      ensures Declares(ir, c, m) <==>
          c in ir.classDefs && (m in MethodsIn(ir, c, true) || m in MethodsIn(ir, c, false))
    {
    }
    hide Declares, MethodsIn;
  }

  /** Merging the mentions leaves each code item as wanted as it is. */
  lemma {:induction false} MergedIsWanted(ir: Ir, p: Profile, layout: map<nat, LayoutType>, code: nat, level: nat)
    requires Merged(Uses(ir, p), layout)
    ensures code in layout && Rank(layout[code]) <= level <==> Wanted(ir, p, code, level)
  {
    hide Uses, Declares, Rank, LayoutOf, WantedAt;
    if code in layout && Rank(layout[code]) <= level {
      UsesHas(ir, p, Use(code, layout[code]));
      var c, m :| Declares(ir, c, m) && m.code == Some(code) && LayoutOf(p, c, m) == layout[code];
      LayoutIsLevel(p, c, m, level);
    }
    if Wanted(ir, p, code, level) {
      var c, m :| Declares(ir, c, m) && m.code == Some(code) && WantedAt(p, c, m, level);
      LayoutIsLevel(p, c, m, level);
      UsesHas(ir, p, Use(code, LayoutOf(p, c, m)));
    }
  }

  /** Gives each code item the most wanted layout among its methods. */
  method AssignLayouts(ir: Ir, p: Profile) returns (layout: map<nat, LayoutType>)
    ensures forall code, level: nat ::
        code in layout && Rank(layout[code]) <= level <==> Wanted(ir, p, code, level)
  {
    hide Uses, Wanted;
    var uses := Uses(ir, p);
    layout := map[];
    for k := 0 to |uses|
      invariant Merged(uses[..k], layout)
    {
      assert uses[..k + 1] == uses[..k] + [uses[k]];
      var u := uses[k];
      if u.code !in layout {
        layout := layout[u.code := u.layout];
      } else {
        layout := layout[u.code := Merge(layout[u.code], u.layout)];
      }
    }
    assert uses[..|uses|] == uses;
    forall code, level: nat
      ensures code in layout && Rank(layout[code]) <= level <==> Wanted(ir, p, code, level)
    {
      MergedIsWanted(ir, p, layout, code, level);
    }
  }

  /** Every code item belongs to some method. */
  ghost predicate CodeIsUsed(ir: Ir) {
    forall code: nat :: code < |ir.codeItems| ==> exists c, m :: Declares(ir, c, m) && m.code == Some(code)
  }

  /** Sorts the code items from most to least wanted; equally wanted ones keep the order they had. */
  method LayoutCodeItems(ir: Ir, p: Profile, current: seq<nat>) returns (order: seq<nat>, moved: seq<nat>)
    requires Permutation(current, |ir.codeItems|) && CodeIsUsed(ir)
    ensures Permutation(order, |ir.codeItems|) && Permutation(moved, |ir.codeItems|)
    ensures forall i :: 0 <= i < |order| ==> order[i] == current[moved[i]]
    ensures forall i, j, level: nat :: 0 <= i < j < |order| && Wanted(ir, p, order[j], level) ==>
        Wanted(ir, p, order[i], level)
    ensures forall i, j :: 0 <= i < j < |order| && EquallyWanted(ir, p, order[i], order[j]) ==> moved[i] < moved[j]
  {
    hide Permutation, Wanted, Rank, EquallyWanted;
    var layout := AssignLayouts(ir, p);
    Inside(current, |ir.codeItems|);
    AllHaveLayouts(ir, p, layout);
    var ranks := seq(|current|, i requires 0 <= i < |current| => Rank(layout[current[i]]));
    moved := StableSort(ranks);
    Inside(moved, |current|);
    order := seq(|moved|, i requires 0 <= i < |moved| => current[moved[i]]);
    Composed(current, moved, order);
    forall i, j | 0 <= i < j < |order|
      ensures Rank(layout[order[i]]) <= Rank(layout[order[j]])
      ensures EquallyWanted(ir, p, order[i], order[j]) ==> moved[i] < moved[j]
    {
      assert Before(ranks, moved[i], moved[j]);
      if EquallyWanted(ir, p, order[i], order[j]) {
        SameRank(ir, p, layout, order[i], order[j]);
      }
    }
  }

  /** At every level both code items are wanted or neither is. */
  ghost predicate EquallyWanted(ir: Ir, p: Profile, a: nat, b: nat) {
    forall level: nat :: Wanted(ir, p, a, level) <==> Wanted(ir, p, b, level)
  }

  lemma {:induction false} SameRank(ir: Ir, p: Profile, layout: map<nat, LayoutType>, a: nat, b: nat)
    requires a in layout && b in layout && EquallyWanted(ir, p, a, b)
    requires forall code, level: nat :: code in layout && Rank(layout[code]) <= level <==> Wanted(ir, p, code, level)
    ensures Rank(layout[a]) == Rank(layout[b])
  {
    hide Rank, Wanted;
    assert Wanted(ir, p, a, Rank(layout[a])) && Wanted(ir, p, b, Rank(layout[b]));
  }

  lemma {:induction false} AllHaveLayouts(ir: Ir, p: Profile, layout: map<nat, LayoutType>)
    requires CodeIsUsed(ir)
    requires forall code, level: nat :: code in layout && Rank(layout[code]) <= level <==> Wanted(ir, p, code, level)
    ensures forall code: nat :: code < |ir.codeItems| ==> code in layout
  {
    hide Declares, Rank;
    forall code: nat | code < |ir.codeItems|
      ensures code in layout
    {
      var c, m :| Declares(ir, c, m) && m.code == Some(code);
      assert WantedAt(p, c, m, 4);
      assert Wanted(ir, p, code, 4);
    }
  }

  // ---- all three together

  /** A file laid out by any such orders is as valid as it was. */
  lemma {:induction false} LayoutKeepsValid(ir: Ir, classDatas: seq<nat>, stringDatas: seq<nat>, codeItems: seq<nat>)
    requires Valid(ir) && Permutation(classDatas, |ir.classDatas|)
    requires Permutation(stringDatas, |ir.stringDatas|) && Permutation(codeItems, |ir.codeItems|)
    ensures Valid(ir.(order := ir.order[ClassDatas := classDatas][StringDatas := stringDatas][CodeSection :=
        codeItems]))
  {
    hide Permutation;
    var now := ir.(order := ir.order[ClassDatas := classDatas][StringDatas := stringDatas][CodeSection := codeItems]);
    assert TablesOf(now) == TablesOf(ir);
    forall k | k in now.order
      ensures !IsIdSection(k) && Permutation(now.order[k], Count(now, k))
    {
      assert Count(now, k) == Count(ir, k);
    }
  }
}
