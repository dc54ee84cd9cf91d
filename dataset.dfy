/**
 * The sample store (js/core/dataset.js): a JavaScript object mapping each gesture
 * label to the ordered list of feature vectors recorded for it, plus the label
 * currently being recorded.
 */
module Dataset {
  import opened Wrappers
  import opened JsText
  import opened JsObject
  import Hands

  type Vector = seq<real>
  type Buckets = map<string, seq<Vector>>

  const MinLabels: nat := 2
  const MinSamples: nat := 5
  const ReadyMessage := "Ready to train!"
  const NoDataMessage := "No data collected yet"
  const OneLabelMessage := "Need at least 2 symbols (you have 1)"
  const LowDataMessage := "Low data - consider adding more samples"

  /** One row of `getSummary`. */
  datatype SummaryEntry = SummaryEntry(name: string, count: nat)

  /** One row of `getImbalanceWarnings`. */
  datatype Warning = Warning(name: string, count: nat, message: string)

  /** One member of a parsed dataset file, in the order the parser met it. */
  datatype Entry = Entry(name: string, samples: seq<Vector>)

  /** `getSampleCount` on a bucket map: the bucket's length, 0 for a missing label. */
  function Count(b: Buckets, name: string): nat {
    if name in b then |b[name]| else 0
  }

  /** The sum of the bucket lengths of `keys`, in key order. */
  function SumCounts(keys: seq<string>, b: Buckets): nat {
    if keys == [] then 0 else SumCounts(keys[..|keys| - 1], b) + Count(b, keys[|keys| - 1])
  }

  /** The position of the first label with fewer than `MinSamples` samples, if any. */
  function FirstShort(keys: seq<string>, b: Buckets): (r: Option<nat>)
    ensures r.None? <==> forall i :: 0 <= i < |keys| ==> Count(b, keys[i]) >= MinSamples
    ensures r.Some? ==> r.value < |keys| && Count(b, keys[r.value]) < MinSamples
    ensures r.Some? ==> forall i :: 0 <= i < r.value ==> Count(b, keys[i]) >= MinSamples
  {
    if keys == [] then None
    else if Count(b, keys[0]) < MinSamples then Some(0)
    else match FirstShort(keys[1..], b)
      case None => None
      case Some(i) => Some(i + 1)
  }

  /** `Math.max(...counts)`. */
  function MaxCount(keys: seq<string>, b: Buckets): (m: nat)
    requires |keys| > 0
    ensures forall i :: 0 <= i < |keys| ==> Count(b, keys[i]) <= m
    ensures exists i :: 0 <= i < |keys| && Count(b, keys[i]) == m
  {
    if |keys| == 1 then Count(b, keys[0])
    else
      var m := MaxCount(keys[1..], b);
      assert forall i :: 1 <= i < |keys| ==> keys[i] == keys[1..][i - 1];
      if Count(b, keys[0]) > m then Count(b, keys[0]) else m
  }

  /** `Math.min(...counts)`. */
  function MinCount(keys: seq<string>, b: Buckets): (m: nat)
    requires |keys| > 0
    ensures forall i :: 0 <= i < |keys| ==> m <= Count(b, keys[i])
    ensures exists i :: 0 <= i < |keys| && Count(b, keys[i]) == m
  {
    if |keys| == 1 then Count(b, keys[0])
    else
      var m := MinCount(keys[1..], b);
      assert forall i :: 1 <= i < |keys| ==> keys[i] == keys[1..][i - 1];
      if Count(b, keys[0]) < m then Count(b, keys[0]) else m
  }

  /** The decimal numeral of `n`, as a template literal prints it. */
  function DecimalText(n: nat): (r: string)
    ensures |r| > 0
  {
    if n < 10 then ['0' + n as char] else DecimalText(n / 10) + ['0' + (n % 10) as char]
  }

  /** The under-sampled label message of `getReadinessMessage`. */
  function ShortMessage(name: string, count: nat): string {
    "\"" + name + "\" needs more samples (" + DecimalText(count) + "/5 minimum)"
  }

  /**
   * The labels of `keys`, in order, whose count is below 60% of the mean, that is
   * count < 0.6 * total / n, written as 5 * count * n < 3 * total.
   */
  function LowData(keys: seq<string>, b: Buckets, total: nat, n: nat): seq<Warning> {
    if keys == [] then []
    else
      var k := keys[|keys| - 1];
      var c := Count(b, k);
      LowData(keys[..|keys| - 1], b, total, n)
        + (if 5 * c * n < 3 * total then [Warning(k, c, LowDataMessage)] else [])
  }

  /** Strictly ascending by label. */
  predicate SortedByLabel(s: seq<SummaryEntry>) {
    forall i, j :: 0 <= i < j < |s| ==> Below(s[i].name, s[j].name)
  }

  /** The value of `this.dataset`: its keys in JavaScript order, and the buckets. */
  datatype Store = Store(keys: seq<string>, buckets: Buckets) {

    /** The keys are a well-ordered key sequence of exactly the labels that have buckets. */
    ghost predicate Valid() {
      KeyOrdered(keys) && forall k :: k in keys <==> k in buckets
    }

    /**
     * A label the model can look up: one with a bucket, or one that does not name
     * an Object.prototype member (for those, `this.dataset[label]` reads the inherited member).
     */
    predicate Readable(name: string) {
      name in buckets || !IsInheritedName(name)
    }

    /** `getSampleCount`. */
    function SampleCount(name: string): (n: nat)
      requires Readable(name)
      ensures name !in buckets ==> n == 0
      ensures name in buckets ==> n == |buckets[name]|
    {
      Count(buckets, name)
    }

    /** `getLabels`. */
    function GetLabels(): (r: seq<string>)
      requires Valid()
      ensures forall l :: l in r <==> l in buckets
      ensures Distinct(r)
    {
      keys
    }

    /** The value `getTotalSamples` computes. */
    function TotalSamples(): nat {
      SumCounts(keys, buckets)
    }

    /** `isReadyForTraining`: at least two labels and every label at least five samples. */
    function IsReadyForTraining(): (r: bool)
      ensures r <==> |keys| >= MinLabels && forall l :: l in keys ==> Count(buckets, l) >= MinSamples
    {
      assert forall l :: l in keys ==> exists i :: 0 <= i < |keys| && keys[i] == l;
      |keys| >= MinLabels && FirstShort(keys, buckets).None?
    }

    /** `getReadinessMessage`: the first violation found, in the order the checks run. */
    function ReadinessMessage(): (r: string)
      ensures r == ReadyMessage <==> IsReadyForTraining()
      ensures |keys| == 0 ==> r == NoDataMessage
      ensures |keys| == 1 ==> r == OneLabelMessage
    {
      if |keys| == 0 then NoDataMessage
      else if |keys| < MinLabels then "Need at least 2 symbols (you have " + DecimalText(|keys|) + ")"
      else match FirstShort(keys, buckets)
        case Some(i) =>
          var m := ShortMessage(keys[i], Count(buckets, keys[i]));
          assert m[0] == '"' != ReadyMessage[0];
          m
        case None => ReadyMessage
    }

    /**
     * `isBalanced`: true with fewer than two labels, otherwise
     * (max - min) / max < 0.5, written as 2 * (max - min) < max
     * (false when every bucket is empty, as 0 / 0 is NaN).
     */
    function IsBalanced(): (r: bool)
      ensures r <==>
        (|keys| < MinLabels ||
         forall i, j :: 0 <= i < |keys| && 0 <= j < |keys| ==> Count(buckets, keys[i]) < 2 * Count(buckets, keys[j]))
    {
      if |keys| < MinLabels then true
      else
        var mx := MaxCount(keys, buckets);
        var mn := MinCount(keys, buckets);
        WithinFactorTwo(keys, buckets);
        2 * (mx - mn) < mx
    }

    /** `this.dataset[label] = samples`: a new key is created in JavaScript key order. */
    function Put(name: string, samples: seq<Vector>): Store {
      if name in buckets then Store(keys, buckets[name := samples])
      else Store(InsertKey(keys, name), buckets[name := samples])
    }

    /** `delete this.dataset[label]`. */
    function Remove(name: string): Store {
      Store(Without(keys, name), buckets - {name})
    }

    /** The members `JSON.stringify` writes, in key order. */
    function Entries(): (es: seq<Entry>)
      requires Valid()
      ensures |es| == |keys|
      ensures forall i :: 0 <= i < |keys| ==> es[i] == Entry(keys[i], buckets[keys[i]])
    {
      seq(|keys|, i requires 0 <= i < |keys| => Entry(keys[i], buckets[keys[i]]))
    }
  }

  const Empty := Store([], map[])

  /** The object `JSON.parse` builds from the members it reads, in order (a repeated member overwrites). */
  function FromEntries(es: seq<Entry>): (st: Store)
    ensures es != [] ==> es[|es| - 1].name in st.buckets && st.buckets[es[|es| - 1].name] == es[|es| - 1].samples
  {
    if es == [] then Empty
    else
      var e := es[|es| - 1];
      FromEntries(es[..|es| - 1]).Put(e.name, e.samples)
  }

  /** Storing a bucket keeps a store well-formed and changes only that bucket. */
  lemma PutValid(st: Store, name: string, samples: seq<Vector>)
    requires st.Valid()
    ensures st.Put(name, samples).Valid()
    ensures st.Put(name, samples).buckets == st.buckets[name := samples]
    ensures name in st.buckets ==> st.Put(name, samples).keys == st.keys
  {
    if name !in st.buckets {
      InsertKeyOrdered(st.keys, name);
    }
  }

  /** Deleting a key keeps a store well-formed. */
  lemma RemoveValid(st: Store, name: string)
    requires st.Valid()
    ensures st.Remove(name).Valid()
  {
    WithoutOrdered(st.keys, name);
    WithoutMembers(st.keys, name);
  }

  lemma {:induction false} SumCountsAppend(a: seq<string>, c: seq<string>, b: Buckets)
    ensures SumCounts(a + c, b) == SumCounts(a, b) + SumCounts(c, b)
    decreases |c|
  {
    if c == [] {
      assert a + c == a;
    } else {
      var n := |c| - 1;
      assert (a + c)[..|a + c| - 1] == a + c[..n];
      SumCountsAppend(a, c[..n], b);
    }
  }

  lemma {:induction false} SumCountsFrame(keys: seq<string>, b1: Buckets, b2: Buckets)
    requires forall k :: k in keys ==> Count(b1, k) == Count(b2, k)
    ensures SumCounts(keys, b1) == SumCounts(keys, b2)
    decreases |keys|
  {
    if keys != [] {
      SumCountsFrame(keys[..|keys| - 1], b1, b2);
    }
  }

  lemma {:induction false} SumCountsAbsent(keys: seq<string>, b: Buckets, name: string, s: seq<Vector>)
    requires name !in keys
    ensures SumCounts(keys, b[name := s]) == SumCounts(keys, b)
  {
    SumCountsFrame(keys, b[name := s], b);
  }

  /** Splitting `keys` around the one position holding `label`. */
  lemma SplitAt(keys: seq<string>, name: string) returns (i: nat)
    requires Distinct(keys) && name in keys
    ensures i < |keys| && keys[i] == name
    ensures keys == keys[..i] + [name] + keys[i + 1..]
    ensures name !in keys[..i] && name !in keys[i + 1..]
  {
    i :| 0 <= i < |keys| && keys[i] == name;
    assert keys == keys[..i] + [name] + keys[i + 1..];
  }

  lemma SingleCount(name: string, b: Buckets)
    ensures SumCounts([name], b) == Count(b, name)
  {
    assert [name][..0] == [];
  }

  /** The total of `a + [name] + c` splits into the three parts. */
  lemma SumCountsSplice(a: seq<string>, name: string, c: seq<string>, b: Buckets)
    ensures SumCounts(a + [name] + c, b) == SumCounts(a, b) + Count(b, name) + SumCounts(c, b)
  {
    SumCountsAppend(a + [name], c, b);
    SumCountsAppend(a, [name], b);
    SingleCount(name, b);
  }

  lemma PutTotalPresent(st: Store, name: string, samples: seq<Vector>)
    requires st.Valid() && name in st.buckets
    ensures st.Put(name, samples).TotalSamples() + Count(st.buckets, name)
         == st.TotalSamples() + |samples|
  {
    var b' := st.buckets[name := samples];
    var i := SplitAt(st.keys, name);
    var a, c := st.keys[..i], st.keys[i + 1..];
    SumCountsSplice(a, name, c, b');
    SumCountsSplice(a, name, c, st.buckets);
    SumCountsAbsent(a, st.buckets, name, samples);
    SumCountsAbsent(c, st.buckets, name, samples);
  }

  lemma PutTotalAbsent(st: Store, name: string, samples: seq<Vector>)
    requires st.Valid() && name !in st.buckets
    ensures st.Put(name, samples).TotalSamples() == st.TotalSamples() + |samples|
  {
    var b' := st.buckets[name := samples];
    InsertKeyOrdered(st.keys, name);
    var keys' := InsertKey(st.keys, name);
    var i := SplitAt(keys', name);
    var a, c := keys'[..i], keys'[i + 1..];
    SpliceRemovable(a, c, name);
    SumCountsSplice(a, name, c, b');
    SumCountsAppend(a, c, st.buckets);
    SumCountsAbsent(a, st.buckets, name, samples);
    SumCountsAbsent(c, st.buckets, name, samples);
  }

  /** Replacing one bucket changes the total by the difference of the two lengths. */
  lemma PutTotal(st: Store, name: string, samples: seq<Vector>)
    requires st.Valid()
    ensures st.Put(name, samples).TotalSamples() + Count(st.buckets, name)
         == st.TotalSamples() + |samples|
  {
    if name in st.buckets {
      PutTotalPresent(st, name, samples);
    } else {
      PutTotalAbsent(st, name, samples);
    }
  }

  lemma RemoveTotalPresent(st: Store, name: string)
    requires st.Valid() && name in st.buckets
    ensures st.Remove(name).TotalSamples() + Count(st.buckets, name) == st.TotalSamples()
  {
    var b' := st.buckets - {name};
    var i := SplitAt(st.keys, name);
    var a, c := st.keys[..i], st.keys[i + 1..];
    SpliceRemovable(a, c, name);
    assert st.Remove(name) == Store(a + c, b');
    SumCountsAppend(a, c, b');
    SumCountsSplice(a, name, c, st.buckets);
    SumCountsFrame(a, b', st.buckets);
    SumCountsFrame(c, b', st.buckets);
  }

  /** Deleting a label takes its whole bucket off the total. */
  lemma RemoveTotal(st: Store, name: string)
    requires st.Valid()
    ensures st.Remove(name).TotalSamples() + Count(st.buckets, name) == st.TotalSamples()
  {
    if name in st.buckets {
      RemoveTotalPresent(st, name);
    } else {
      WithoutAbsent(st.keys, name);
      SumCountsFrame(st.keys, st.buckets - {name}, st.buckets);
    }
  }

  /** The store made of the first `n` keys and their buckets. */
  ghost function Prefix(st: Store, n: nat): Store
    requires st.Valid() && n <= |st.keys|
  {
    Store(st.keys[..n], map k | k in st.keys[..n] :: st.buckets[k])
  }

  lemma PrefixStep(st: Store, n: nat)
    requires st.Valid() && n < |st.keys|
    ensures Prefix(st, n).Put(st.keys[n], st.buckets[st.keys[n]]) == Prefix(st, n + 1)
  {
    var k := st.keys[n];
    assert st.keys[..n + 1] == st.keys[..n] + [k];
    assert k !in st.keys[..n];
    InsertKeyAtEnd(st.keys, n);
    var p := Prefix(st, n).Put(k, st.buckets[k]);
    assert p.keys == Prefix(st, n + 1).keys;
    assert p.buckets == Prefix(st, n + 1).buckets;
  }

  /** Parsing the first `n` exported members gives the store of the first `n` keys. */
  lemma {:induction false} ImportPrefix(st: Store, n: nat)
    requires st.Valid() && n <= |st.keys|
    ensures FromEntries(st.Entries()[..n]) == Prefix(st, n)
    decreases n
  {
    var es := st.Entries();
    if n == 0 {
      assert Prefix(st, 0).buckets == map[];
    } else {
      var m := n - 1;
      ImportPrefix(st, m);
      var x := es[..n];
      assert x[..m] == es[..m];
      var k := st.keys[m];
      assert x[m] == Entry(k, st.buckets[k]);
      assert FromEntries(x) == FromEntries(es[..m]).Put(k, st.buckets[k]);
      PrefixStep(st, m);
    }
  }

  lemma PrefixAll(st: Store)
    requires st.Valid()
    ensures Prefix(st, |st.keys|) == st
  {
    assert st.keys[..|st.keys|] == st.keys;
    assert Prefix(st, |st.keys|).buckets == st.buckets;
  }

  /** Exporting a store and parsing the text back gives the same store, key order included. */
  lemma ExportImportRoundTrip(st: Store)
    requires st.Valid()
    ensures FromEntries(st.Entries()) == st
  {
    var es := st.Entries();
    ImportPrefix(st, |st.keys|);
    assert es[..|st.keys|] == es;
    PrefixAll(st);
  }

  /** The member names of a parsed file, in order. */
  function MemberNames(es: seq<Entry>): (r: seq<string>)
    ensures |r| == |es| && forall i :: 0 <= i < |es| ==> r[i] == es[i].name
  {
    seq(|es|, i requires 0 <= i < |es| => es[i].name)
  }

  /** A store built by parsing is well-formed and has a bucket exactly for each member name. */
  lemma {:induction false} FromEntriesValid(es: seq<Entry>)
    ensures FromEntries(es).Valid()
    ensures forall k :: k in FromEntries(es).buckets <==> k in MemberNames(es)
  {
    if es != [] {
      var n := |es| - 1;
      var pre := es[..n];
      FromEntriesValid(pre);
      PutValid(FromEntries(pre), es[n].name, es[n].samples);
      assert FromEntries(es) == FromEntries(pre).Put(es[n].name, es[n].samples);
      assert MemberNames(es) == MemberNames(pre) + [es[n].name];
    }
  }

  /** In a parsed store each label holds the samples of the last member carrying it. */
  lemma {:induction false} FromEntriesLast(es: seq<Entry>, i: nat)
    requires i < |es|
    requires forall j :: i < j < |es| ==> es[j].name != es[i].name
    ensures es[i].name in FromEntries(es).buckets
    ensures FromEntries(es).buckets[es[i].name] == es[i].samples
    decreases |es|
  {
    var n := |es| - 1;
    if i < n {
      assert es[..n][i] == es[i];
      assert forall j :: i < j < n ==> es[..n][j] == es[j];
      FromEntriesLast(es[..n], i);
    }
  }

  /**
   * The readiness message names the first label, in key order, that has fewer than
   * five samples, once there are at least two labels.
   */
  lemma ReadinessNamesFirstShort(st: Store, i: nat)
    requires |st.keys| >= MinLabels && i < |st.keys|
    requires Count(st.buckets, st.keys[i]) < MinSamples
    requires forall j :: 0 <= j < i ==> Count(st.buckets, st.keys[j]) >= MinSamples
    ensures st.ReadinessMessage() == ShortMessage(st.keys[i], Count(st.buckets, st.keys[i]))
  {
    var r := FirstShort(st.keys, st.buckets);
    assert r.Some?;
    assert r.value == i;
  }

  /**
   * The largest count is below twice the gap-free bound, 2 * (max - min) < max, exactly
   * when every count is below twice every count (and so none is zero).
   */
  lemma WithinFactorTwo(keys: seq<string>, b: Buckets)
    requires |keys| > 0
    ensures 2 * (MaxCount(keys, b) - MinCount(keys, b)) < MaxCount(keys, b) <==>
      forall i, j :: 0 <= i < |keys| && 0 <= j < |keys| ==> Count(b, keys[i]) < 2 * Count(b, keys[j])
  {
    var mx := MaxCount(keys, b);
    var mn := MinCount(keys, b);
    var a :| 0 <= a < |keys| && Count(b, keys[a]) == mx;
    var z :| 0 <= z < |keys| && Count(b, keys[z]) == mn;
  }

  /** Two or more labels without samples are never balanced. */
  lemma AllEmptyUnbalanced(st: Store)
    requires |st.keys| >= MinLabels
    requires forall l :: l in st.keys ==> Count(st.buckets, l) == 0
    ensures !st.IsBalanced()
  {
    assert Count(st.buckets, st.keys[0]) == 0;
  }

  lemma {:induction false} LowDataMembers(keys: seq<string>, b: Buckets, total: nat, n: nat)
    ensures forall w :: w in LowData(keys, b, total, n) <==>
      w.name in keys && w.count == Count(b, w.name) && w.message == LowDataMessage
      && 5 * w.count * n < 3 * total
    decreases |keys|
  {
    if keys != [] {
      var m := |keys| - 1;
      LowDataMembers(keys[..m], b, total, n);
      assert keys == keys[..m] + [keys[m]];
    }
  }

  lemma {:induction false} SumAtMostMax(keys: seq<string>, b: Buckets, m: nat)
    requires forall k :: k in keys ==> Count(b, k) <= m
    ensures SumCounts(keys, b) <= |keys| * m
    decreases |keys|
  {
    if keys != [] {
      SumAtMostMax(keys[..|keys| - 1], b, m);
    }
  }

  lemma {:induction false} LowDataShorter(keys: seq<string>, b: Buckets, total: nat, n: nat)
    ensures |LowData(keys, b, total, n)| <= |keys|
    ensures (exists k :: k in keys && 5 * Count(b, k) * n >= 3 * total) ==>
      |LowData(keys, b, total, n)| < |keys|
    decreases |keys|
  {
    if keys != [] {
      var m := |keys| - 1;
      LowDataShorter(keys[..m], b, total, n);
      if exists k :: k in keys && 5 * Count(b, k) * n >= 3 * total {
        var k :| k in keys && 5 * Count(b, k) * n >= 3 * total;
        if k != keys[m] {
          assert k in keys[..m] by { assert keys == keys[..m] + [keys[m]]; }
        }
      }
    }
  }

  lemma MeanAtMostMax(total: nat, n: nat, mx: nat)
    requires total <= n * mx
    ensures 3 * total <= 5 * mx * n
  {
    assert 5 * mx * n == 5 * (n * mx);
  }

  /** The warnings never flag every label: a label with the largest count is at or above the mean. */
  lemma NotEveryLabelWarned(st: Store)
    requires |st.keys| >= MinLabels
    ensures |LowData(st.keys, st.buckets, st.TotalSamples(), |st.keys|)| < |st.keys|
  {
    var mx := MaxCount(st.keys, st.buckets);
    var a :| 0 <= a < |st.keys| && Count(st.buckets, st.keys[a]) == mx;
    forall k | k in st.keys ensures Count(st.buckets, k) <= mx {
      var i :| 0 <= i < |st.keys| && st.keys[i] == k;
    }
    SumAtMostMax(st.keys, st.buckets, mx);
    var n := |st.keys|;
    var k := st.keys[a];
    assert 5 * Count(st.buckets, k) * n >= 3 * st.TotalSamples() by {
      assert st.TotalSamples() <= n * mx;
      MeanAtMostMax(st.TotalSamples(), n, mx);
    }
    LowDataShorter(st.keys, st.buckets, st.TotalSamples(), n);
  }

  /** Every entry of `s` has a label above `x`. */
  predicate Above(x: string, s: seq<SummaryEntry>) {
    forall i :: 0 <= i < |s| ==> Below(x, s[i].name)
  }

  /** No entry of `s` carries the label `x`. */
  predicate LabelFree(x: string, s: seq<SummaryEntry>) {
    forall i :: 0 <= i < |s| ==> s[i].name != x
  }

  /** One step of insertion sorting by label. */
  function InsertByLabel(s: seq<SummaryEntry>, e: SummaryEntry): seq<SummaryEntry> {
    if s == [] then [e]
    else if Below(e.name, s[0].name) then [e] + s
    else [s[0]] + InsertByLabel(s[1..], e)
  }

  lemma ConsSorted(x: SummaryEntry, t: seq<SummaryEntry>)
    requires Above(x.name, t) && SortedByLabel(t)
    ensures SortedByLabel([x] + t)
  {
    var r := [x] + t;
    forall i, j | 0 <= i < j < |r| ensures Below(r[i].name, r[j].name) {
      assert r[j] == t[j - 1];
      if i > 0 {
        assert r[i] == t[i - 1];
      }
    }
  }

  lemma {:induction false} InsertKeepsAbove(x: string, s: seq<SummaryEntry>, e: SummaryEntry)
    requires Above(x, s) && Below(x, e.name)
    ensures Above(x, InsertByLabel(s, e))
    decreases |s|
  {
    if s != [] && !Below(e.name, s[0].name) {
      InsertKeepsAbove(x, s[1..], e);
      var t := InsertByLabel(s[1..], e);
      assert forall i :: 0 < i <= |t| ==> ([s[0]] + t)[i] == t[i - 1];
    }
  }

  lemma {:induction false} InsertSorted(s: seq<SummaryEntry>, e: SummaryEntry)
    requires SortedByLabel(s) && LabelFree(e.name, s)
    ensures SortedByLabel(InsertByLabel(s, e))
    ensures multiset(InsertByLabel(s, e)) == multiset(s) + multiset{e}
    decreases |s|
  {
    if s == [] {
    } else if Below(e.name, s[0].name) {
      forall j | 0 <= j < |s| ensures Below(e.name, s[j].name) {
        if j > 0 {
          BelowTransitive(e.name, s[0].name, s[j].name);
        }
      }
      ConsSorted(e, s);
    } else {
      BelowTotal(e.name, s[0].name);
      var tail := s[1..];
      assert forall i :: 0 <= i < |tail| ==> tail[i] == s[i + 1];
      InsertSorted(tail, e);
      InsertKeepsAbove(s[0].name, tail, e);
      ConsSorted(s[0], InsertByLabel(tail, e));
      assert s == [s[0]] + tail;
    }
  }

  lemma FreshLabel(r: seq<SummaryEntry>, s: seq<SummaryEntry>, i: nat)
    requires i < |s| && multiset(r) == multiset(s[..i])
    requires forall p, q :: 0 <= p < q < |s| ==> s[p].name != s[q].name
    ensures LabelFree(s[i].name, r)
  {
    forall k | 0 <= k < |r| ensures r[k].name != s[i].name {
      assert r[k] in multiset(s[..i]);
      var j :| 0 <= j < i && s[..i][j] == r[k];
    }
  }

  /** The ordering step of `getSummary`, on entries with distinct labels. */
  method SortByLabel(s: seq<SummaryEntry>) returns (r: seq<SummaryEntry>)
    requires forall i, j :: 0 <= i < j < |s| ==> s[i].name != s[j].name
    ensures SortedByLabel(r)
    ensures multiset(r) == multiset(s)
  {
    r := [];
    for i := 0 to |s|
      invariant SortedByLabel(r)
      invariant multiset(r) == multiset(s[..i])
    {
      FreshLabel(r, s, i);
      InsertSorted(r, s[i]);
      assert s[..i + 1] == s[..i] + [s[i]];
      r := InsertByLabel(r, s[i]);
    }
    assert s[..|s|] == s;
  }

  /** The store object and the label being recorded. */
  class DatasetManager {
    var dataset: Store
    var currentLabel: string

    ghost predicate Valid()
      reads this
    {
      dataset.Valid()
    }

    constructor ()
      ensures Valid()
      ensures dataset == Empty && currentLabel == ""
    {
      dataset := Empty;
      currentLabel := "";
    }

    /**
     * `setLabel`: record under the trimmed label; an empty bucket is created only for a
     * non-empty label that is not yet a key, and no existing bucket changes.
     */
    method SetLabel(name: string)
      requires Valid()
      requires dataset.Readable(Trim(name))
      modifies this
      ensures Valid()
      ensures currentLabel == Trim(name)
      ensures dataset == if currentLabel != "" && currentLabel !in old(dataset.buckets)
        then old(dataset).Put(currentLabel, []) else old(dataset)
      ensures forall l :: l in old(dataset.buckets) ==>
        l in dataset.buckets && dataset.buckets[l] == old(dataset.buckets)[l]
      ensures currentLabel != "" ==> currentLabel in dataset.buckets
      ensures dataset.TotalSamples() == old(dataset.TotalSamples())
    {
      currentLabel := Trim(name);
      if currentLabel != "" && currentLabel !in dataset.buckets {
        PutValid(dataset, currentLabel, []);
        PutTotal(dataset, currentLabel, []);
        dataset := dataset.Put(currentLabel, []);
      }
    }

    /**
     * `addSample`: rejected with no change without a current label or without
     * landmarks; otherwise the features are appended to the current label's bucket
     * and nothing else changes.
     */
    method AddSample(landmarks: Option<seq<Hands.Landmark>>) returns (ok: bool)
      requires Valid()
      requires currentLabel != "" ==> currentLabel in dataset.buckets
      modifies this
      ensures Valid() && currentLabel == old(currentLabel)
      ensures ok <==> currentLabel != "" && landmarks.Some?
      ensures !ok ==> dataset == old(dataset)
      ensures ok ==> dataset.keys == old(dataset.keys)
      ensures ok ==> dataset.buckets == old(dataset.buckets)[currentLabel :=
        old(dataset.buckets[currentLabel]) + [Hands.Flatten(landmarks.value)]]
      ensures dataset.TotalSamples() == old(dataset.TotalSamples()) + if ok then 1 else 0
    {
      if currentLabel == "" {
        return false;
      }
      if landmarks.None? {
        return false;
      }
      // extractFeatures yields null only for absent landmarks, so features are present here.
      var features := Hands.ExtractFeatures(landmarks);
      var bucket := dataset.buckets[currentLabel] + [features.value];
      PutValid(dataset, currentLabel, bucket);
      PutTotal(dataset, currentLabel, bucket);
      dataset := dataset.Put(currentLabel, bucket);
      ok := true;
    }

    /** `getTotalSamples`: the bucket lengths summed in key order. */
    method GetTotalSamples() returns (total: nat)
      ensures total == dataset.TotalSamples()
    {
      var keys := dataset.keys;
      total := 0;
      for i := 0 to |keys|
        invariant total == SumCounts(keys[..i], dataset.buckets)
      {
        assert keys[..i + 1][..i] == keys[..i];
        total := total + Count(dataset.buckets, keys[i]);
      }
      assert keys[..|keys|] == keys;
    }

    /** `getSummary`: one entry per label with its count, in ascending label order. */
    method GetSummary() returns (summary: seq<SummaryEntry>)
      requires Valid()
      ensures |summary| == |dataset.keys|
      ensures forall e :: e in summary <==>
        e.name in dataset.buckets && e.count == dataset.SampleCount(e.name)
      ensures SortedByLabel(summary)
    {
      var keys := dataset.keys;
      var rows: seq<SummaryEntry> := [];
      for i := 0 to |keys|
        invariant |rows| == i
        invariant forall j :: 0 <= j < i ==> rows[j] == SummaryEntry(keys[j], dataset.SampleCount(keys[j]))
      {
        rows := rows + [SummaryEntry(keys[i], dataset.SampleCount(keys[i]))];
      }
      summary := SortByLabel(rows);
      assert |summary| == |rows| by {
        assert |multiset(summary)| == |multiset(rows)|;
      }
      forall e ensures e in summary <==> e.name in dataset.buckets && e.count == dataset.SampleCount(e.name) {
        assert e in summary <==> e in multiset(rows);
        if e.name in dataset.buckets && e.count == dataset.SampleCount(e.name) {
          var j :| 0 <= j < |keys| && keys[j] == e.name;
          assert rows[j] == e;
        }
      }
    }

    /**
     * `getImbalanceWarnings`: nothing with fewer than two labels, otherwise the labels,
     * in key order, whose count is below 60% of the mean count.
     */
    method GetImbalanceWarnings() returns (warnings: seq<Warning>)
      requires Valid()
      ensures |dataset.keys| < MinLabels ==> warnings == []
      ensures |dataset.keys| >= MinLabels ==>
        warnings == LowData(dataset.keys, dataset.buckets, dataset.TotalSamples(), |dataset.keys|)
    {
      var labels := dataset.keys;
      warnings := [];
      if |labels| < MinLabels {
        return;
      }
      var total := GetTotalSamples();
      var n := |labels|;
      for i := 0 to n
        invariant warnings == LowData(labels[..i], dataset.buckets, total, n)
      {
        assert labels[..i + 1][..i] == labels[..i];
        var count := dataset.SampleCount(labels[i]);
        if 5 * count * n < 3 * total {
          warnings := warnings + [Warning(labels[i], count, LowDataMessage)];
        }
      }
      assert labels[..n] == labels;
    }

    /**
     * `deleteLastSample`: rejected with no change for a missing or empty bucket;
     * otherwise the last vector goes, and the key too when nothing is left.
     */
    method DeleteLastSample(name: string) returns (ok: bool)
      requires Valid()
      requires dataset.Readable(name)
      modifies this
      ensures Valid() && currentLabel == old(currentLabel)
      ensures ok <==> name in old(dataset.buckets) && |old(dataset.buckets)[name]| > 0
      ensures !ok ==> dataset == old(dataset)
      ensures ok && |old(dataset.buckets)[name]| == 1 ==> dataset == old(dataset).Remove(name)
      ensures ok && |old(dataset.buckets)[name]| > 1 ==>
        dataset == Store(old(dataset.keys), old(dataset.buckets)[name :=
          old(dataset.buckets)[name][..|old(dataset.buckets)[name]| - 1]])
      ensures dataset.TotalSamples() == old(dataset.TotalSamples()) - if ok then 1 else 0
    {
      if name !in dataset.buckets || |dataset.buckets[name]| == 0 {
        return false;
      }
      var bucket := dataset.buckets[name];
      var rest := bucket[..|bucket| - 1];
      PutValid(dataset, name, rest);
      PutTotal(dataset, name, rest);
      dataset := dataset.Put(name, rest);
      if |rest| == 0 {
        RemoveValid(dataset, name);
        RemoveTotal(dataset, name);
        assert dataset.Remove(name) == old(dataset).Remove(name);
        dataset := dataset.Remove(name);
      }
      ok := true;
    }

    /** `clearLabel`: rejected for a missing label; otherwise the key goes, empty bucket or not. */
    method ClearLabel(name: string) returns (ok: bool)
      requires Valid()
      requires dataset.Readable(name)
      modifies this
      ensures Valid() && currentLabel == old(currentLabel)
      ensures ok <==> name in old(dataset.buckets)
      ensures ok ==> dataset == old(dataset).Remove(name)
      ensures !ok ==> dataset == old(dataset)
      ensures dataset.TotalSamples() == old(dataset.TotalSamples()) - old(Count(dataset.buckets, name))
    {
      if name !in dataset.buckets {
        return false;
      }
      RemoveValid(dataset, name);
      RemoveTotal(dataset, name);
      dataset := dataset.Remove(name);
      ok := true;
    }

    /**
     * `importDataset`, given what `JSON.parse` produced (`None` when it threw): a
     * parse result replaces the whole store, a parse failure changes nothing.
     */
    method ImportDataset(parsed: Option<seq<Entry>>) returns (ok: bool)
      requires Valid()
      modifies this
      ensures Valid() && currentLabel == old(currentLabel)
      ensures ok <==> parsed.Some?
      ensures ok ==> dataset == FromEntries(parsed.value)
      ensures !ok ==> dataset == old(dataset)
    {
      if parsed.None? {
        return false;
      }
      FromEntriesValid(parsed.value);
      dataset := FromEntries(parsed.value);
      ok := true;
    }

    /** `reset`: no labels and no current label. */
    method Reset()
      modifies this
      ensures Valid()
      ensures dataset == Empty && currentLabel == ""
    {
      dataset := Empty;
      currentLabel := "";
    }
  }
}
