/** The canonical form of JSON values that decides whether two submissions are the same. */
module CanonicalForm {
  import opened Orders
  import opened Decimals

  /** An object lists its own properties in the order they are enumerated; numbers are told apart by their
      printed form. */
  datatype JsValue =
    | Null
    | Bool(b: bool)
    | Number(text: string)
    | Str(s: string)
    | Arr(items: seq<JsValue>)
    | Obj(entries: seq<(string, JsValue)>)

  // ----- objects -----

  predicate UniqueKeys<T>(entries: seq<(string, T)>) {
    forall i, j :: 0 <= i < j < |entries| ==> entries[i].0 != entries[j].0
  }

  function Keys<T>(entries: seq<(string, T)>): set<string> {
    set i | 0 <= i < |entries| :: entries[i].0
  }

  /** Array indices are enumerated before all other keys. */
  predicate IsIndex(key: string) {
    key == "0" || (0 < |key| <= 10 && key[0] != '0' && AllDigits(key) && DigitsValue(key) < 0xFFFF_FFFF)
  }

  predicate SmallerIndex(a: string, b: string) {
    |a| < |b| || (|a| == |b| && Below(a, b))
  }

  function OwnOrder<T>(entries: seq<(string, T)>): seq<(string, T)> {
    Sort(Filter(entries, (e: (string, T)) => IsIndex(e.0)), ByKey((a, b) => SmallerIndex(a, b)))
    + Filter(entries, (e: (string, T)) => !IsIndex(e.0))
  }

  /** A property written twice keeps its place and takes the later value. */
  function Put<T>(props: seq<(string, T)>, key: string, value: T): seq<(string, T)> {
    if props == [] then [(key, value)]
    else if props[0].0 == key then [(key, value)] + props[1..]
    else [props[0]] + Put(props[1..], key, value)
  }

  function PutAll<T>(props: seq<(string, T)>, entries: seq<(string, T)>): seq<(string, T)>
    decreases |entries|
  {
    if entries == [] then props else PutAll(Put(props, entries[0].0, entries[0].1), entries[1..])
  }

  function FromEntries<T>(entries: seq<(string, T)>): seq<(string, T)> {
    OwnOrder(PutAll([], entries))
  }

  function ByKey<T>(less: (string, string) -> bool): ((string, T), (string, T)) -> bool {
    (x: (string, T), y: (string, T)) => less(x.0, y.0)
  }

  /** The entries put in order by key and made into an object again. */
  function SortedObject<T>(entries: seq<(string, T)>, less: (string, string) -> bool): seq<(string, T)> {
    FromEntries(Sort(entries, ByKey(less)))
  }

  ghost predicate IsTotalOrder(less: (string, string) -> bool) {
    && (forall x :: !less(x, x))
    && (forall x, y, z :: less(x, y) && less(y, z) ==> less(x, z))
    && (forall x, y :: x == y || less(x, y) || less(y, x))
  }

  lemma {:induction false} PutNewKey<T(!new)>(props: seq<(string, T)>, key: string, value: T)
    requires key !in Keys(props)
    ensures Put(props, key, value) == props + [(key, value)]
  {
    if props != [] {
      assert props[0].0 in Keys(props);
      forall k | k in Keys(props[1..]) ensures k in Keys(props) {
        var i :| 0 <= i < |props[1..]| && props[1..][i].0 == k;
        assert props[i + 1].0 == k;
      }
      PutNewKey(props[1..], key, value);
      assert props == [props[0]] + props[1..];
    }
  }

  lemma {:induction false} PutAllUnique<T(!new)>(props: seq<(string, T)>, entries: seq<(string, T)>)
    requires UniqueKeys(props + entries)
    ensures PutAll(props, entries) == props + entries
    decreases |entries|
  {
    var both := props + entries;
    if entries != [] {
      forall i | 0 <= i < |props| ensures props[i].0 != entries[0].0 {
        assert both[i] == props[i] && both[|props|] == entries[0];
      }
      PutNewKey(props, entries[0].0, entries[0].1);
      assert props + [(entries[0].0, entries[0].1)] + entries[1..] == both;
      PutAllUnique(props + [(entries[0].0, entries[0].1)], entries[1..]);
    }
  }

  lemma KeysOfRest<T(!new)>(props: seq<(string, T)>)
    requires props != []
    ensures Keys(props) == {props[0].0} + Keys(props[1..])
    ensures UniqueKeys(props) <==> props[0].0 !in Keys(props[1..]) && UniqueKeys(props[1..])
  {
    forall k | k in Keys(props) ensures k in {props[0].0} + Keys(props[1..]) {
      var i :| 0 <= i < |props| && props[i].0 == k;
      assert i > 0 ==> props[1..][i - 1].0 == k;
    }
    forall k | k in Keys(props[1..]) ensures k in Keys(props) {
      var i :| 0 <= i < |props[1..]| && props[1..][i].0 == k;
      assert props[i + 1].0 == k;
    }
    var rest := props[1..];
    forall i | 0 < i < |props| ensures props[i] == rest[i - 1] && props[i].0 in Keys(rest) {
      KeyAt(rest, i - 1);
    }
    if UniqueKeys(rest) && props[0].0 !in Keys(rest) {
      forall i, j | 0 <= i < j < |props| ensures props[i].0 != props[j].0 {
        if i > 0 { assert rest[i - 1].0 != rest[j - 1].0; }
      }
    }
  }

  lemma {:induction false} PutKeeps<T(!new)>(props: seq<(string, T)>, key: string, value: T)
    requires UniqueKeys(props)
    ensures var r := Put(props, key, value);
            UniqueKeys(r) && r != [] && Keys(r) == Keys(props) + {key} && ToSet(r) <= ToSet(props) + {(key, value)}
  {
    var r := Put(props, key, value);
    KeysOfRest(r);
    if props == [] {
      assert Keys(r[1..]) == {} && Keys(props) == {};
    } else {
      KeysOfRest(props);
      hide Keys, UniqueKeys;
      if props[0].0 != key {
        PutKeeps(props[1..], key, value);
        assert r[1..] == Put(props[1..], key, value);
        assert ToSet(r) <= {props[0]} + ToSet(r[1..]);
      } else {
        assert r[1..] == props[1..];
      }
    }
  }

  lemma {:induction false} PutAllKeeps<T(!new)>(props: seq<(string, T)>, entries: seq<(string, T)>)
    requires UniqueKeys(props)
    ensures var r := PutAll(props, entries);
            UniqueKeys(r) && (props + entries != [] ==> r != []) && ToSet(r) <= ToSet(props) + ToSet(entries)
    decreases |entries|
  {
    if entries != [] {
      PutKeeps(props, entries[0].0, entries[0].1);
      PutAllKeeps(Put(props, entries[0].0, entries[0].1), entries[1..]);
    }
  }

  /** Even of entries that repeat a key an object is made with each key once, from entries it was given. */
  lemma SortedObjectIsObject<T(!new)>(entries: seq<(string, T)>, less: (string, string) -> bool)
    ensures var r := SortedObject(entries, less);
            UniqueKeys(r) && (entries != [] ==> r != []) && ToSet(r) <= ToSet(entries)
  {
    var sorted := Sort(entries, ByKey(less));
    SortKeeps(entries, ByKey(less));
    PutAllKeeps([], sorted);
    var props := PutAll([], sorted);
    OwnOrderKeeps(props);
    if entries != [] {
      assert [] + sorted == sorted;
      assert props[0] in ToSet(OwnOrder(props));
    }
  }

  lemma UniqueKeysBySet<T(!new)>(xs: seq<(string, T)>, ys: seq<(string, T)>)
    requires UniqueKeys(xs) && ToSet(xs) == ToSet(ys) && |xs| == |ys|
    ensures UniqueKeys(ys)
  {
    DistinctCount(xs);
    DistinctCount(ys);
    forall i, j | 0 <= i < j < |ys| ensures ys[i].0 != ys[j].0 {
      assert ys[i] in ToSet(xs) && ys[j] in ToSet(xs);
    }
  }

  lemma OwnOrderKeeps<T(!new)>(entries: seq<(string, T)>)
    requires UniqueKeys(entries)
    ensures ToSet(OwnOrder(entries)) == ToSet(entries) && UniqueKeys(OwnOrder(entries))
  {
    var index := (e: (string, T)) => IsIndex(e.0);
    var other := (e: (string, T)) => !IsIndex(e.0);
    FilterKeeps(entries, index);
    FilterKeeps(entries, other);
    var sorted := Sort(Filter(entries, index), ByKey((a, b) => SmallerIndex(a, b)));
    SortKeeps(Filter(entries, index), ByKey((a, b) => SmallerIndex(a, b)));
    assert OwnOrder(entries) == sorted + Filter(entries, other);
    forall e ensures e in ToSet(OwnOrder(entries)) <==> e in ToSet(entries) {
      assert e in ToSet(sorted) <==> e in ToSet(Filter(entries, index));
    }
    FilterSplits(entries, index, other);
    UniqueKeysBySet(entries, OwnOrder(entries));
  }

  lemma {:induction false} FilterSplits<T(!new)>(xs: seq<T>, keep: T -> bool, drop: T -> bool)
    requires forall x :: keep(x) <==> !drop(x)
    ensures |Filter(xs, keep)| + |Filter(xs, drop)| == |xs|
  {
    if xs != [] { FilterSplits(xs[1..], keep, drop); }
  }

  lemma SortedIsUnique<T(!new)>(entries: seq<(string, T)>, less: (string, string) -> bool)
    requires UniqueKeys(entries) && IsTotalOrder(less)
    ensures var sorted := Sort(entries, ByKey(less));
            UniqueKeys(sorted) && ToSet(sorted) == ToSet(entries) && Ascending(sorted, ByKey(less))
  {
    var before: ((string, T), (string, T)) -> bool := ByKey(less);
    forall x ensures !before(x, x) {
      assert !less(x.0, x.0);
    }
    forall x, y, z | before(x, y) && before(y, z) ensures before(x, z) {
      assert less(x.0, y.0) && less(y.0, z.0);
    }
    SortCorrect(entries, before);
    UniqueKeysBySet(entries, Sort(entries, before));
  }

  lemma SortedObjectKeeps<T(!new)>(entries: seq<(string, T)>, less: (string, string) -> bool)
    requires UniqueKeys(entries) && IsTotalOrder(less)
    ensures ToSet(SortedObject(entries, less)) == ToSet(entries) && UniqueKeys(SortedObject(entries, less))
  {
    var sorted := Sort(entries, ByKey(less));
    SortedIsUnique(entries, less);
    assert [] + sorted == sorted;
    PutAllUnique([], sorted);
    OwnOrderKeeps(sorted);
  }

  /** Two objects have one sorted form exactly when they have the same properties. */
  lemma SortedObjectsAgree<T(!new)>(xs: seq<(string, T)>, ys: seq<(string, T)>, less: (string, string) -> bool)
    requires UniqueKeys(xs) && UniqueKeys(ys) && IsTotalOrder(less)
    ensures SortedObject(xs, less) == SortedObject(ys, less) <==> ToSet(xs) == ToSet(ys)
  {
    SortedObjectKeeps(xs, less);
    SortedObjectKeeps(ys, less);
    SortedIsUnique(xs, less);
    SortedIsUnique(ys, less);
    if ToSet(xs) == ToSet(ys) {
      AscendingUnique(Sort(xs, ByKey(less)), Sort(ys, ByKey(less)), ByKey(less));
    }
  }

  // ----- values -----

  function Stable(v: JsValue, less: (string, string) -> bool): JsValue
    decreases v
  {
    match v
    case Arr(items) => Arr(seq(|items|, i requires 0 <= i < |items| => Stable(items[i], less)))
    case Obj(entries) =>
      Obj(SortedObject(seq(|entries|, i requires 0 <= i < |entries| => (entries[i].0, Stable(entries[i].1, less))), less))
    case _ => v
  }

  function StableEntries(entries: seq<(string, JsValue)>, less: (string, string) -> bool): seq<(string, JsValue)> {
    seq(|entries|, i requires 0 <= i < |entries| => (entries[i].0, Stable(entries[i].1, less)))
  }

  /** JSON.stringify tells different values apart, so comparing its texts compares the canonical forms. */
  predicate SameSubmission(a: JsValue, b: JsValue, less: (string, string) -> bool) {
    Stable(a, less) == Stable(b, less)
  }

  /** Every object at every depth has each key once. */
  ghost predicate Keyed(v: JsValue)
    decreases v
  {
    match v
    case Arr(items) => forall i :: 0 <= i < |items| ==> Keyed(items[i])
    case Obj(entries) => UniqueKeys(entries) && forall i :: 0 <= i < |entries| ==> Keyed(entries[i].1)
    case _ => true
  }

  /** Equal but for the order of keys, at every depth. */
  ghost predicate Same(a: JsValue, b: JsValue)
    decreases a
  {
    if a.Arr? && b.Arr? then
      |a.items| == |b.items| && forall i :: 0 <= i < |a.items| ==> Same(a.items[i], b.items[i])
    else if a.Obj? && b.Obj? then
      && Keys(a.entries) == Keys(b.entries)
      && forall i, j :: 0 <= i < |a.entries| && 0 <= j < |b.entries| && a.entries[i].0 == b.entries[j].0
                        ==> Same(a.entries[i].1, b.entries[j].1)
    else a == b
  }

  lemma KeyAt<T(!new)>(entries: seq<(string, T)>, i: nat)
    requires i < |entries|
    ensures entries[i].0 in Keys(entries)
  {
  }

  lemma {:induction false} StableObject(entries: seq<(string, JsValue)>, less: (string, string) -> bool)
    requires UniqueKeys(entries) && IsTotalOrder(less)
    ensures UniqueKeys(StableEntries(entries, less)) && Keys(StableEntries(entries, less)) == Keys(entries)
    ensures Stable(Obj(entries), less) == Obj(SortedObject(StableEntries(entries, less), less))
    ensures ToSet(SortedObject(StableEntries(entries, less), less)) == ToSet(StableEntries(entries, less))
    ensures UniqueKeys(SortedObject(StableEntries(entries, less), less))
  {
    hide SortedObject;
    var stable := StableEntries(entries, less);
    SortedObjectKeeps(stable, less);
    forall k ensures k in Keys(stable) <==> k in Keys(entries) {
      if k in Keys(entries) {
        var i :| 0 <= i < |entries| && entries[i].0 == k;
        assert stable[i].0 == k;
      }
      if k in Keys(stable) {
        var i :| 0 <= i < |stable| && stable[i].0 == k;
        assert entries[i].0 == k;
      }
    }
  }

  /** Two values have one canonical form exactly when they are equal but for the order of keys. */
  lemma {:induction false} StableIffSame(a: JsValue, b: JsValue, less: (string, string) -> bool)
    requires Keyed(a) && Keyed(b) && IsTotalOrder(less)
    ensures SameSubmission(a, b, less) <==> Same(a, b)
    decreases a
  {
    if a.Arr? && b.Arr? {
      StableIffSameItems(a, b, less);
    } else if a.Obj? && b.Obj? {
      StableIffSameEntries(a, b, less);
    }
  }

  lemma {:induction false} StableIffSameItems(a: JsValue, b: JsValue, less: (string, string) -> bool)
    requires a.Arr? && b.Arr? && Keyed(a) && Keyed(b) && IsTotalOrder(less)
    ensures SameSubmission(a, b, less) <==> Same(a, b)
    decreases a, 0
  {
    forall i | 0 <= i < |a.items| && i < |b.items|
      ensures Stable(a.items[i], less) == Stable(b.items[i], less) <==> Same(a.items[i], b.items[i])
    {
      StableIffSame(a.items[i], b.items[i], less);
    }
    var x, y := Stable(a, less).items, Stable(b, less).items;
    assert |x| == |a.items| && |y| == |b.items|;
    if Same(a, b) {
      forall i | 0 <= i < |x| ensures x[i] == y[i] {
        assert Same(a.items[i], b.items[i]);
      }
    }
    if x == y {
      forall i | 0 <= i < |x| ensures Same(a.items[i], b.items[i]) {
        assert x[i] == y[i];
      }
    }
  }

  lemma {:induction false} StableIffSameEntries(a: JsValue, b: JsValue, less: (string, string) -> bool)
    requires a.Obj? && b.Obj? && Keyed(a) && Keyed(b) && IsTotalOrder(less)
    ensures SameSubmission(a, b, less) <==> Same(a, b)
    decreases a, 0
  {
    forall i, j | 0 <= i < |a.entries| && 0 <= j < |b.entries|
      ensures Stable(a.entries[i].1, less) == Stable(b.entries[j].1, less) <==> Same(a.entries[i].1, b.entries[j].1)
    {
      StableIffSame(a.entries[i].1, b.entries[j].1, less);
    }
    StableObject(a.entries, less);
    StableObject(b.entries, less);
    var x, y := StableEntries(a.entries, less), StableEntries(b.entries, less);
    SortedObjectsAgree(x, y, less);
    hide SortedObject;
    if Same(a, b) {
      EntriesOfSame(a.entries, b.entries, less);
      EntriesOfSame(b.entries, a.entries, less);
    }
    if ToSet(x) == ToSet(y) {
      SameOfEntries(a.entries, b.entries, less);
    }
  }

  lemma EntriesOfSame(a: seq<(string, JsValue)>, b: seq<(string, JsValue)>, less: (string, string) -> bool)
    requires Keys(a) == Keys(b)
    requires forall i, j :: 0 <= i < |a| && 0 <= j < |b| && a[i].0 == b[j].0 ==> Stable(a[i].1, less) == Stable(b[j].1, less)
    ensures ToSet(StableEntries(a, less)) <= ToSet(StableEntries(b, less))
  {
    var x, y := StableEntries(a, less), StableEntries(b, less);
    forall i | 0 <= i < |a| ensures x[i] in y {
      KeyAt(a, i);
      var j :| 0 <= j < |b| && b[j].0 == a[i].0;
      assert x[i] == y[j];
    }
  }

  lemma SameOfEntries(a: seq<(string, JsValue)>, b: seq<(string, JsValue)>, less: (string, string) -> bool)
    requires UniqueKeys(a) && UniqueKeys(b)
    requires ToSet(StableEntries(a, less)) == ToSet(StableEntries(b, less))
    ensures Keys(StableEntries(a, less)) == Keys(StableEntries(b, less))
    ensures forall i, j :: 0 <= i < |a| && 0 <= j < |b| && a[i].0 == b[j].0 ==> Stable(a[i].1, less) == Stable(b[j].1, less)
  {
    var x, y := StableEntries(a, less), StableEntries(b, less);
    forall k ensures k in Keys(x) <==> k in Keys(y) {
      if k in Keys(x) { KeysFromSet(x, y, k); }
      if k in Keys(y) { KeysFromSet(y, x, k); }
    }
    forall i, j | 0 <= i < |a| && 0 <= j < |b| && a[i].0 == b[j].0 ensures x[i] == y[j] {
      assert x[i] in ToSet(y);
      var n :| 0 <= n < |y| && y[n] == x[i];
      assert b[n].0 == b[j].0;
    }
    forall i, j | 0 <= i < |a| && 0 <= j < |b| && a[i].0 == b[j].0
      ensures Stable(a[i].1, less) == Stable(b[j].1, less)
    {
      assert x[i] == y[j];
    }
  }

  lemma KeysFromSet<T(!new)>(x: seq<(string, T)>, y: seq<(string, T)>, k: string)
    requires ToSet(x) <= ToSet(y) && k in Keys(x)
    ensures k in Keys(y)
  {
    var i :| 0 <= i < |x| && x[i].0 == k;
    assert x[i] in ToSet(y);
  }

  /** The canonical form is the value it stands for. */
  lemma {:induction false} StableIsSame(v: JsValue, less: (string, string) -> bool)
    requires Keyed(v) && IsTotalOrder(less)
    ensures Keyed(Stable(v, less)) && Same(v, Stable(v, less))
    decreases v
  {
    if v.Arr? {
      forall i | 0 <= i < |v.items|
        ensures Keyed(Stable(v.items[i], less)) && Same(v.items[i], Stable(v.items[i], less))
      {
        StableIsSame(v.items[i], less);
      }
    } else if v.Obj? {
      forall i | 0 <= i < |v.entries|
        ensures Keyed(Stable(v.entries[i].1, less)) && Same(v.entries[i].1, Stable(v.entries[i].1, less))
      {
        StableIsSame(v.entries[i].1, less);
      }
      StableEntriesSame(v.entries, less);
      hide SortedObject;
    }
  }

  lemma StableEntriesSame(entries: seq<(string, JsValue)>, less: (string, string) -> bool)
    requires UniqueKeys(entries) && IsTotalOrder(less)
    requires forall i :: 0 <= i < |entries| ==>
               Keyed(Stable(entries[i].1, less)) && Same(entries[i].1, Stable(entries[i].1, less))
    ensures Keyed(Stable(Obj(entries), less)) && Same(Obj(entries), Stable(Obj(entries), less))
  {
    StableObject(entries, less);
    var x, s := StableEntries(entries, less), SortedObject(StableEntries(entries, less), less);
    hide SortedObject;
    forall j | 0 <= j < |s| ensures exists i :: 0 <= i < |x| && x[i] == s[j] {
      assert s[j] in ToSet(x);
    }
    forall k ensures k in Keys(x) <==> k in Keys(s) {
      if k in Keys(x) { KeysFromSet(x, s, k); }
      if k in Keys(s) { KeysFromSet(s, x, k); }
    }
    forall j | 0 <= j < |s| ensures Keyed(s[j].1) {
      var n :| 0 <= n < |x| && x[n] == s[j];
    }
    forall i, j | 0 <= i < |entries| && 0 <= j < |s| && entries[i].0 == s[j].0 ensures Same(entries[i].1, s[j].1) {
      var n :| 0 <= n < |x| && x[n] == s[j];
    }
  }

  /** Bringing a value into canonical form twice changes nothing more. */
  lemma StableIdempotent(v: JsValue, less: (string, string) -> bool)
    requires Keyed(v) && IsTotalOrder(less)
    ensures Stable(Stable(v, less), less) == Stable(v, less)
  {
    StableIsSame(v, less);
    StableIffSame(v, Stable(v, less), less);
  }

  // ----- the order in which properties are enumerated -----

  lemma {:induction false} ReprintedDigits(s: string)
    requires AllDigits(s) && s != "" && (s == "0" || s[0] != '0')
    ensures PrintNat(DigitsValue(s)) == s && (s[0] != '0' ==> DigitsValue(s) > 0)
  {
    var front, last := s[..|s| - 1], s[|s| - 1];
    assert s == front + [last];
    if front == "" {
      assert DigitsValue(front) == 0;
    } else {
      assert front[0] == s[0];
      ReprintedDigits(front);
    }
  }

  lemma {:induction false} PrintedLength(n: nat, k: nat)
    requires k > 0
    ensures n < Pow10(k) <==> |PrintNat(n)| <= k
    ensures PrintNat(n) == "0" <==> n == 0
    ensures n > 0 ==> PrintNat(n)[0] != '0'
    decreases n
  {
    if n >= 10 {
      PrintedLength(n / 10, if k > 1 then k - 1 else 1);
      assert Pow10(1) == 10;
    } else {
      assert k > 1 ==> Pow10(k) >= 10 by { assert k > 1 ==> Pow10(k) == 10 * Pow10(k - 1); }
      assert Pow10(1) == 10;
    }
  }

  /** An array index is the decimal spelling of a number below 2^32 - 1, and no other key is one. */
  lemma IndexIsPrinted(key: string)
    requires IsIndex(key)
    ensures key == PrintNat(DigitsValue(key)) && DigitsValue(key) < 4_294_967_295
  {
    ReprintedDigits(key);
    assert key == "0" ==> DigitsValue(key) == 0 by { assert "0"[..0] == ""; }
  }

  lemma PrintedIsIndex(n: nat)
    requires n < 4_294_967_295
    ensures IsIndex(PrintNat(n))
  {
    PrintNatValue(n);
    PowersOfTen();
    PrintedLength(n, 10);
  }

  lemma PowersOfTen()
    ensures Pow10(10) == 10_000_000_000
  {
    assert Pow10(5) == 100_000;
    Pow10Sum(5, 5);
  }

  /** Of two indices the one printed shorter, or first in the dictionary at one length, is the smaller number. */
  lemma {:induction false} SmallerIndexIsSmaller(a: string, b: string)
    requires AllDigits(a) && AllDigits(b) && |a| == |b| && Below(a, b)
    ensures DigitsValue(a) < DigitsValue(b)
  {
    var x, y := [a[0]], [b[0]];
    assert a == x + a[1..] && b == y + b[1..];
    DigitsValueConcat(x, a[1..]);
    DigitsValueConcat(y, b[1..]);
    assert x[..0] == "" && y[..0] == "";
    DigitsBound(a[1..]);
    DigitsBound(b[1..]);
    if a[0] == b[0] {
      SmallerIndexIsSmaller(a[1..], b[1..]);
    } else {
      LeadingDigit(a[0] as int - '0' as int, b[0] as int - '0' as int, Pow10(|a| - 1), DigitsValue(a[1..]), DigitsValue(b[1..]));
    }
  }

  lemma LeadingDigit(x: int, y: int, p: int, r: int, s: int)
    requires x < y && 0 <= r < p && 0 <= s
    ensures x * p + r < y * p + s
  {
    assert (x + 1) * p <= y * p;
  }

  lemma {:induction false} DigitsBound(s: string)
    requires AllDigits(s)
    ensures DigitsValue(s) < Pow10(|s|)
  {
    if s != "" { DigitsBound(s[..|s| - 1]); }
  }

  lemma LongerIsGreater(a: string, b: string)
    requires IsIndex(a) && IsIndex(b) && |a| < |b|
    ensures DigitsValue(a) < DigitsValue(b)
  {
    IndexIsPrinted(b);
    DigitsBound(a);
    PrintedLength(DigitsValue(b), |a|);
  }

  /** The properties of a sorted object are enumerated as JavaScript does it: array indices first, by number, and all
      other keys after them, in the given order. */
  lemma EnumerationOrder<T(!new)>(entries: seq<(string, T)>, less: (string, string) -> bool, i: nat, j: nat)
    requires UniqueKeys(entries) && IsTotalOrder(less) && i < j < |SortedObject(entries, less)|
    ensures var a, b := SortedObject(entries, less)[i].0, SortedObject(entries, less)[j].0;
            && (IsIndex(b) ==> IsIndex(a) && DigitsValue(a) < DigitsValue(b))
            && (!IsIndex(a) ==> !IsIndex(b) && less(a, b))
  {
    var sorted := Sort(entries, ByKey(less));
    SortedIsUnique(entries, less);
    assert [] + sorted == sorted;
    PutAllUnique([], sorted);
    OwnOrderParts(sorted, less, i, j);
  }

  lemma OwnOrderParts<T(!new)>(sorted: seq<(string, T)>, less: (string, string) -> bool, i: nat, j: nat)
    requires UniqueKeys(sorted) && Ascending(sorted, ByKey(less)) && i < j < |OwnOrder(sorted)|
    ensures var a, b := OwnOrder(sorted)[i].0, OwnOrder(sorted)[j].0;
            && (IsIndex(b) ==> IsIndex(a) && DigitsValue(a) < DigitsValue(b))
            && (!IsIndex(a) ==> !IsIndex(b) && less(a, b))
  {
    var index := (e: (string, T)) => IsIndex(e.0);
    var other := (e: (string, T)) => !IsIndex(e.0);
    var smaller: ((string, T), (string, T)) -> bool := ByKey((a, b) => SmallerIndex(a, b));
    var first, second := Sort(Filter(sorted, index), smaller), Filter(sorted, other);
    assert OwnOrder(sorted) == first + second;
    FilterKeeps(sorted, index);
    FilterKeeps(sorted, other);
    SortKeeps(Filter(sorted, index), smaller);
    IndicesAscend(sorted);
    FilterAscends(sorted, other, ByKey(less));
    hide SmallerIndex, Sort, Filter, IsIndex, OwnOrder;
    if j < |first| {
      assert first[i] in ToSet(first) && first[j] in ToSet(first);
      assert smaller(first[i], first[j]);
      SmallerIsLess(first[i].0, first[j].0);
    } else if i >= |first| {
      var x, y := second[i - |first|], second[j - |first|];
      assert x in second && y in second;
      assert ByKey(less)(x, y);
    } else {
      assert first[i] in ToSet(first) && second[j - |first|] in second;
    }
  }

  lemma SmallerIsLess(a: string, b: string)
    requires IsIndex(a) && IsIndex(b) && SmallerIndex(a, b)
    ensures DigitsValue(a) < DigitsValue(b)
  {
    if |a| < |b| { LongerIsGreater(a, b); } else { SmallerIndexIsSmaller(a, b); }
  }

  lemma {:induction false} FilterAscends<T(!new)>(xs: seq<T>, keep: T -> bool, less: (T, T) -> bool)
    requires Ascending(xs, less)
    ensures Ascending(Filter(xs, keep), less)
  {
    if xs != [] {
      FilterAscends(xs[1..], keep, less);
      FilterKeeps(xs[1..], keep);
      var rest := Filter(xs[1..], keep);
      forall j | 0 <= j < |rest| ensures less(xs[0], rest[j]) {
        assert rest[j] in rest;
        var n :| 0 <= n < |xs[1..]| && xs[1..][n] == rest[j];
        assert less(xs[0], xs[n + 1]);
      }
    }
  }

  lemma IndicesAscend<T(!new)>(entries: seq<(string, T)>)
    requires UniqueKeys(entries)
    ensures var index := (e: (string, T)) => IsIndex(e.0);
            var smaller: ((string, T), (string, T)) -> bool := ByKey((a, b) => SmallerIndex(a, b));
            Ascending(Sort(Filter(entries, index), smaller), smaller)
  {
    var index := (e: (string, T)) => IsIndex(e.0);
    var smaller: ((string, T), (string, T)) -> bool := ByKey((a, b) => SmallerIndex(a, b));
    var indices := Filter(entries, index);
    FilterKeeps(entries, index);
    assert Distinct(entries) by {
      forall i, j | 0 <= i < j < |entries| ensures entries[i] != entries[j] {
        assert entries[i].0 != entries[j].0;
      }
    }
    forall x ensures !smaller(x, x) { BelowIrreflexive(x.0); }
    forall x, y, z | smaller(x, y) && smaller(y, z) ensures smaller(x, z) {
      assert SmallerIndex(x.0, y.0) && SmallerIndex(y.0, z.0);
      if |x.0| == |y.0| == |z.0| { BelowTransitive(x.0, y.0, z.0); }
    }
    forall x, y | x in indices && y in indices ensures x == y || smaller(x, y) || smaller(y, x) {
      BelowTotal(x.0, y.0);
      if x.0 == y.0 { SameKeySameEntry(entries, x, y); }
    }
    SortCorrect(indices, smaller);
  }

  lemma SameKeySameEntry<T(!new)>(entries: seq<(string, T)>, x: (string, T), y: (string, T))
    requires UniqueKeys(entries) && x in entries && y in entries && x.0 == y.0
    ensures x == y
  {
    var i, j :| 0 <= i < |entries| && 0 <= j < |entries| && entries[i] == x && entries[j] == y;
    assert !(i < j) && !(j < i);
  }

  // ----- repeated keys -----

  /** Of entries that repeat a key the object keeps the value of the last one. */
  lemma {:induction false} LastEntryWins<T(!new)>(props: seq<(string, T)>, entries: seq<(string, T)>, n: nat)
    requires UniqueKeys(props) && n < |entries| && forall m :: n < m < |entries| ==> entries[m].0 != entries[n].0
    ensures entries[n] in PutAll(props, entries)
    decreases |entries|
  {
    PutKeeps(props, entries[0].0, entries[0].1);
    var next := Put(props, entries[0].0, entries[0].1);
    if n > 0 {
      LastEntryWins(next, entries[1..], n - 1);
    } else {
      PutHas(props, entries[0].0, entries[0].1);
      forall m | 0 <= m < |entries[1..]| ensures entries[1..][m].0 != entries[0].0 {
        assert entries[1..][m] == entries[m + 1];
      }
      OthersKept(next, entries[1..], entries[0]);
    }
  }

  lemma {:induction false} PutHas<T(!new)>(props: seq<(string, T)>, key: string, value: T)
    ensures (key, value) in Put(props, key, value)
    ensures forall e :: e in props && e.0 != key ==> e in Put(props, key, value)
  {
    if props != [] {
      PutHas(props[1..], key, value);
      assert props == [props[0]] + props[1..];
    }
  }

  lemma {:induction false} OthersKept<T(!new)>(props: seq<(string, T)>, entries: seq<(string, T)>, e: (string, T))
    requires e in props && forall m :: 0 <= m < |entries| ==> entries[m].0 != e.0
    ensures e in PutAll(props, entries)
    decreases |entries|
  {
    if entries != [] {
      PutHas(props, entries[0].0, entries[0].1);
      OthersKept(Put(props, entries[0].0, entries[0].1), entries[1..], e);
    }
  }

  function WithKey<T>(entries: seq<(string, T)>, key: string): seq<(string, T)> {
    Filter(entries, (e: (string, T)) => e.0 == key)
  }

  lemma {:induction false} InsertIsStable<T(!new)>(x: (string, T), xs: seq<(string, T)>, less: (string, string) -> bool, key: string)
    requires forall a :: !less(a, a)
    ensures WithKey(Insert(x, xs, ByKey(less)), key) == WithKey([x] + xs, key)
  {
    if xs != [] && less(xs[0].0, x.0) {
      InsertIsStable(x, xs[1..], less, key);
      var rest := Insert(x, xs[1..], ByKey(less));
      assert Insert(x, xs, ByKey(less)) == [xs[0]] + rest;
      WithKeyStep(xs[0], rest, key);
      WithKeyStep(x, xs[1..], key);
      WithKeyStep(x, xs, key);
      WithKeyStep(xs[0], xs[1..], key);
      assert xs == [xs[0]] + xs[1..];
    } else {
      assert Insert(x, xs, ByKey(less)) == [x] + xs;
    }
  }

  lemma WithKeyStep<T(!new)>(x: (string, T), xs: seq<(string, T)>, key: string)
    ensures WithKey([x] + xs, key) == if x.0 == key then [x] + WithKey(xs, key) else WithKey(xs, key)
  {
    assert ([x] + xs)[1..] == xs;
  }

  /** Sorting by key leaves entries of one key in their order. */
  lemma {:induction false} SortIsStable<T(!new)>(xs: seq<(string, T)>, less: (string, string) -> bool, key: string)
    requires forall a :: !less(a, a)
    ensures WithKey(Sort(xs, ByKey(less)), key) == WithKey(xs, key)
  {
    if xs != [] {
      SortIsStable(xs[1..], less, key);
      var sorted := Sort(xs[1..], ByKey(less));
      InsertIsStable(xs[0], sorted, less, key);
      assert ([xs[0]] + sorted)[1..] == sorted;
    }
  }

  /** The last entry of a key is the last of those that have it. */
  lemma {:induction false} LastWithKey<T(!new)>(xs: seq<(string, T)>, n: nat)
    requires n < |xs| && forall m :: n < m < |xs| ==> xs[m].0 != xs[n].0
    ensures var same := WithKey(xs, xs[n].0); same != [] && same[|same| - 1] == xs[n]
  {
    if n > 0 {
      LastWithKey(xs[1..], n - 1);
    } else {
      NoneWithKey(xs[1..], xs[0].0);
    }
  }

  lemma {:induction false} NoneWithKey<T(!new)>(xs: seq<(string, T)>, key: string)
    requires forall m :: 0 <= m < |xs| ==> xs[m].0 != key
    ensures WithKey(xs, key) == []
  {
    if xs != [] { NoneWithKey(xs[1..], key); }
  }

  lemma HasKey<T(!new)>(xs: seq<(string, T)>, n: nat, key: string)
    requires n < |xs| && xs[n].0 == key
    ensures WithKey(xs, key) != []
  {
    FilterKeeps(xs, (e: (string, T)) => e.0 == key);
    assert xs[n] in xs;
  }

  lemma {:induction false} LastPlace<T(!new)>(xs: seq<(string, T)>, key: string) returns (n: nat)
    requires WithKey(xs, key) != []
    ensures n < |xs| && xs[n].0 == key && forall m :: n < m < |xs| ==> xs[m].0 != key
  {
    if WithKey(xs[1..], key) != [] {
      n := LastPlace(xs[1..], key);
      n := n + 1;
      assert forall m :: n < m < |xs| ==> xs[m] == xs[1..][m - 1];
    } else {
      n := 0;
      forall m | 0 < m < |xs| ensures xs[m].0 != key {
        assert xs[1..][m - 1] == xs[m];
        if xs[1..][m - 1].0 == key {
          HasKey(xs[1..], m - 1, key);
        }
      }
    }
  }

  /** An object made of sorted entries has, for every key, the value that was written last. */
  lemma LastWrittenWins<T(!new)>(entries: seq<(string, T)>, less: (string, string) -> bool, n: nat)
    requires IsTotalOrder(less) && n < |entries| && forall m :: n < m < |entries| ==> entries[m].0 != entries[n].0
    ensures entries[n] in SortedObject(entries, less)
  {
    var key, sorted := entries[n].0, Sort(entries, ByKey(less));
    LastWithKey(entries, n);
    SortIsStable(entries, less, key);
    var place := LastPlace(sorted, key);
    LastWithKey(sorted, place);
    LastEntryWins([], sorted, place);
    PutAllKeeps([], sorted);
    OwnOrderKeeps(PutAll([], sorted));
    assert entries[n] in ToSet(OwnOrder(PutAll([], sorted)));
  }
}
