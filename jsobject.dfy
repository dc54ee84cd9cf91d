/**
 * The own-key order of an ordinary JavaScript object (ECMA-262, section 10.1.11.1,
 * OrdinaryOwnPropertyKeys): array-index keys first, in ascending numeric order,
 * then every other string key in the order it was created. `Object.keys`,
 * `Object.values`, `for ... in` and `JSON.stringify` all follow it.
 */
module JsObject {

  /** The largest array index, 2^32 - 2. */
  const MaxArrayIndex: nat := 4294967294

  predicate IsDigit(c: char) { '0' <= c <= '9' }

  predicate AllDigits(s: string) { forall i :: 0 <= i < |s| ==> IsDigit(s[i]) }

  function DigitsValue(s: string): nat
    requires AllDigits(s)
  {
    if s == [] then 0 else DigitsValue(s[..|s| - 1]) * 10 + (s[|s| - 1] as int - '0' as int)
  }

  /** A canonical decimal numeral below 2^32 - 1, such as "0" or "12" (not "012", "-1" or "1.5"). */
  predicate IsArrayIndex(k: string) {
    |k| > 0 && AllDigits(k) && (k[0] != '0' || |k| == 1) && DigitsValue(k) <= MaxArrayIndex
  }

  function IndexValue(k: string): nat
    requires IsArrayIndex(k)
  {
    DigitsValue(k)
  }

  /** The names an empty object literal inherits from Object.prototype. */
  predicate IsInheritedName(k: string) {
    k in {"constructor", "__defineGetter__", "__defineSetter__", "hasOwnProperty",
          "__lookupGetter__", "__lookupSetter__", "isPrototypeOf", "propertyIsEnumerable",
          "toString", "valueOf", "__proto__", "toLocaleString"}
  }

  predicate Distinct(keys: seq<string>) {
    forall i, j :: 0 <= i < j < |keys| ==> keys[i] != keys[j]
  }

  /** A key sequence that an ordinary object can have: distinct, array indices first and ascending. */
  predicate KeyOrdered(keys: seq<string>) {
    && Distinct(keys)
    && forall i, j :: 0 <= i < j < |keys| && IsArrayIndex(keys[j]) ==>
         IsArrayIndex(keys[i]) && IndexValue(keys[i]) <= IndexValue(keys[j])
  }

  /** Where a new array-index key goes: after every array index not above it. */
  function Slot(keys: seq<string>, k: string): (p: nat)
    requires IsArrayIndex(k)
    ensures p <= |keys|
    ensures forall i :: 0 <= i < p ==> IsArrayIndex(keys[i]) && IndexValue(keys[i]) <= IndexValue(k)
    ensures p < |keys| ==> !IsArrayIndex(keys[p]) || IndexValue(keys[p]) > IndexValue(k)
  {
    if keys == [] || !IsArrayIndex(keys[0]) || IndexValue(keys[0]) > IndexValue(k) then 0
    else 1 + Slot(keys[1..], k)
  }

  /** The key order after `obj[k] = v` creates the property `k`. */
  function InsertKey(keys: seq<string>, k: string): seq<string> {
    if IsArrayIndex(k) then
      var p := Slot(keys, k);
      keys[..p] + [k] + keys[p..]
    else keys + [k]
  }

  /** The key order after `delete obj[k]`. */
  function Without(keys: seq<string>, k: string): (r: seq<string>)
    ensures |r| <= |keys|
  {
    if keys == [] then []
    else Without(keys[..|keys| - 1], k) + (if keys[|keys| - 1] == k then [] else [keys[|keys| - 1]])
  }

  lemma {:induction false} WithoutMembers(keys: seq<string>, k: string)
    ensures forall x :: x in Without(keys, k) <==> x in keys && x != k
    decreases |keys|
  {
    if keys != [] {
      var n := |keys| - 1;
      WithoutMembers(keys[..n], k);
      assert keys == keys[..n] + [keys[n]];
    }
  }

  lemma {:induction false} WithoutAppend(a: seq<string>, b: seq<string>, k: string)
    ensures Without(a + b, k) == Without(a, k) + Without(b, k)
    decreases |b|
  {
    if b == [] {
      assert a + b == a;
    } else {
      var n := |b| - 1;
      assert (a + b)[..|a + b| - 1] == a + b[..n];
      WithoutAppend(a, b[..n], k);
    }
  }

  lemma {:induction false} WithoutAbsent(keys: seq<string>, k: string)
    requires k !in keys
    ensures Without(keys, k) == keys
    decreases |keys|
  {
    if keys != [] {
      WithoutAbsent(keys[..|keys| - 1], k);
    }
  }

  /** Deleting a key from a well-ordered key sequence keeps it well-ordered. */
  lemma {:induction false} WithoutOrdered(keys: seq<string>, k: string)
    requires KeyOrdered(keys)
    ensures KeyOrdered(Without(keys, k))
    decreases |keys|
  {
    if keys != [] {
      var n := |keys| - 1;
      var p := keys[..n];
      assert KeyOrdered(p);
      WithoutOrdered(p, k);
      var w := Without(p, k);
      WithoutMembers(p, k);
      if keys[n] != k {
        var r := w + [keys[n]];
        forall i, j | 0 <= i < j < |r| && IsArrayIndex(r[j])
          ensures IsArrayIndex(r[i]) && IndexValue(r[i]) <= IndexValue(r[j])
        {
          if j == |r| - 1 {
            assert r[i] in p;
            var i' :| 0 <= i' < n && p[i'] == r[i];
          }
        }
        forall i, j | 0 <= i < j < |r| ensures r[i] != r[j] {
          if j == |r| - 1 {
            assert r[i] in p;
          }
        }
      }
    }
  }

  /** The elements of `keys[..p] + [k] + keys[p..]`, position by position. */
  lemma SpliceAt(keys: seq<string>, p: nat, k: string)
    requires p <= |keys|
    ensures var r := keys[..p] + [k] + keys[p..];
      && |r| == |keys| + 1 && r[p] == k
      && (forall x :: 0 <= x < p ==> r[x] == keys[x])
      && (forall x :: p < x < |r| ==> r[x] == keys[x - 1])
  {
  }

  /** The order condition for one pair of positions. */
  predicate PairOrdered(a: string, b: string) {
    a != b && (IsArrayIndex(b) ==> IsArrayIndex(a) && IndexValue(a) <= IndexValue(b))
  }

  lemma PairwiseOrdered(r: seq<string>)
    requires forall i, j :: 0 <= i < j < |r| ==> PairOrdered(r[i], r[j])
    ensures KeyOrdered(r)
  {
  }

  lemma SpliceOrdered(keys: seq<string>, k: string)
    requires KeyOrdered(keys) && k !in keys && IsArrayIndex(k)
    ensures KeyOrdered(InsertKey(keys, k))
  {
    var p := Slot(keys, k);
    var r := InsertKey(keys, k);
    SpliceAt(keys, p, k);
    forall i, j | 0 <= i < j < |r| ensures PairOrdered(r[i], r[j]) {
      if i == p {
        assert r[j] == keys[j - 1];
        assert k != keys[j - 1];
      } else if j == p {
        assert r[i] == keys[i];
      } else {
        var i' := if i < p then i else i - 1;
        var j' := if j < p then j else j - 1;
        assert r[i] == keys[i'] && r[j] == keys[j'] && i' < j';
      }
    }
    PairwiseOrdered(r);
  }

  lemma AppendOrdered(keys: seq<string>, k: string)
    requires KeyOrdered(keys) && k !in keys && !IsArrayIndex(k)
    ensures KeyOrdered(keys + [k])
  {
    var r := keys + [k];
    forall i, j | 0 <= i < j < |r| ensures r[i] != r[j] {
      if j == |keys| {
        assert r[i] in keys;
      }
    }
  }

  lemma SpliceRemovable(a: seq<string>, b: seq<string>, k: string)
    requires k !in a && k !in b
    ensures Without(a + [k] + b, k) == a + b
  {
    var kb := [k] + b;
    assert a + [k] + b == a + kb;
    WithoutAppend(a, kb, k);
    WithoutAppend([k], b, k);
    var wk := Without([k], k);
    assert wk == [] by {
      assert [k][..0] == [];
    }
    WithoutAbsent(a, k);
    WithoutAbsent(b, k);
    assert Without(kb, k) == b;
  }

  lemma InsertKeyRemovable(keys: seq<string>, k: string)
    requires k !in keys
    ensures Without(InsertKey(keys, k), k) == keys
  {
    var q := if IsArrayIndex(k) then Slot(keys, k) else |keys|;
    var a, b := keys[..q], keys[q..];
    assert keys == a + b;
    assert InsertKey(keys, k) == a + [k] + b;
    SpliceRemovable(a, b, k);
  }

  lemma InsertKeyMembers(keys: seq<string>, k: string)
    ensures |InsertKey(keys, k)| == |keys| + 1
    ensures forall x :: x in InsertKey(keys, k) <==> x in keys || x == k
  {
    var q := if IsArrayIndex(k) then Slot(keys, k) else |keys|;
    var a, b := keys[..q], keys[q..];
    assert keys == a + b;
    assert InsertKey(keys, k) == a + [k] + b;
  }

  /**
   * Creating a key that is not yet present keeps the order well-formed, adds exactly
   * that key, and leaves the relative order of the other keys as it was.
   */
  lemma InsertKeyOrdered(keys: seq<string>, k: string)
    requires KeyOrdered(keys) && k !in keys
    ensures KeyOrdered(InsertKey(keys, k))
    ensures |InsertKey(keys, k)| == |keys| + 1
    ensures forall x :: x in InsertKey(keys, k) <==> x in keys || x == k
    ensures Without(InsertKey(keys, k), k) == keys
    ensures !IsArrayIndex(k) ==> InsertKey(keys, k) == keys + [k]
  {
    if IsArrayIndex(k) {
      SpliceOrdered(keys, k);
    } else {
      AppendOrdered(keys, k);
    }
    InsertKeyMembers(keys, k);
    InsertKeyRemovable(keys, k);
  }

  /**
   * Re-creating the keys of a well-ordered sequence one by one, in that order,
   * reproduces it: each key lands at the end.
   */
  lemma InsertKeyAtEnd(keys: seq<string>, i: nat)
    requires KeyOrdered(keys) && i < |keys|
    ensures InsertKey(keys[..i], keys[i]) == keys[..i + 1]
  {
    if IsArrayIndex(keys[i]) {
      assert Slot(keys[..i], keys[i]) == i;
    }
  }
}
