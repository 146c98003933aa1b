/** The key record under which entries are stored (pojos/DataKey.java). */
module DataKeys {

  /** A record with one String component: equality and hashing are by `key`. */
  datatype DataKey = DataKey(key: string)

  /** The argument of `compareTo(Object)`: another DataKey, some other object, or null. */
  datatype CompareArg = KeyArg(other: DataKey) | NonKeyArg | NullArg

  function FromString(s: string): (k: DataKey)
    ensures k.key == s
  {
    DataKey(s)
  }

  /** Two strings give the same key exactly when they are equal. */
  lemma FromStringInjective(s: string, t: string)
    ensures FromString(s) == FromString(t) <==> s == t
  {
  }

  /** Record equality is structural on the one component, which is what the
      partition's map lookup relies on. */
  lemma EqualityIsByKey(a: DataKey, b: DataKey)
    ensures a == b <==> a.key == b.key
  {
  }

  /** Java's `String.compareTo`: the difference of the first differing
      characters, or else the difference of the lengths. */
  function StringCompareTo(a: string, b: string): (c: int)
    ensures c == 0 <==> a == b
    ensures |a| <= |b| && a == b[..|a|] ==> c == |a| - |b|
    ensures |b| <= |a| && b == a[..|b|] ==> c == |a| - |b|
    ensures forall k :: 0 <= k < |a| && k < |b| && a[..k] == b[..k] && a[k] != b[k]
                        ==> c == a[k] as int - b[k] as int
    decreases |a|
  {
    if |a| == 0 || |b| == 0 then |a| - |b|
    else if a[0] != b[0] then a[0] as int - b[0] as int
    else
      assert forall k :: 0 < k <= |a| && k <= |b| && a[..k] == b[..k] ==> a[1..][..k - 1] == b[1..][..k - 1] by {
        forall k | 0 < k <= |a| && k <= |b| && a[..k] == b[..k]
          ensures a[1..][..k - 1] == b[1..][..k - 1]
        {
          assert a[1..][..k - 1] == a[..k][1..] && b[1..][..k - 1] == b[..k][1..];
        }
      }
      StringCompareTo(a[1..], b[1..])
  }

  function CompareTo(self: DataKey, arg: CompareArg): (c: int)
    ensures arg.KeyArg? ==> c == StringCompareTo(self.key, arg.other.key)
    ensures !arg.KeyArg? ==> c == 1
  {
    match arg
    case KeyArg(other) => StringCompareTo(self.key, other.key)
    case NonKeyArg => 1
    case NullArg => 1
  }

  lemma {:induction false} CompareZeroIffEqual(a: string, b: string)
    ensures StringCompareTo(a, b) == 0 <==> a == b
  {
    if |a| == 0 || |b| == 0 {
    } else if a[0] != b[0] {
    } else {
      CompareZeroIffEqual(a[1..], b[1..]);
      assert a == [a[0]] + a[1..] && b == [b[0]] + b[1..];
    }
  }

  lemma {:induction false} CompareAntisymmetric(a: string, b: string)
    ensures StringCompareTo(a, b) == -StringCompareTo(b, a)
  {
    if |a| == 0 || |b| == 0 {
    } else if a[0] != b[0] {
    } else {
      CompareAntisymmetric(a[1..], b[1..]);
    }
  }

  lemma {:induction false} CompareTransitive(a: string, b: string, c: string)
    requires StringCompareTo(a, b) < 0 && StringCompareTo(b, c) < 0
    ensures StringCompareTo(a, c) < 0
  {
    if |a| == 0 || |b| == 0 || |c| == 0 {
    } else if a[0] != b[0] || b[0] != c[0] {
    } else {
      CompareTransitive(a[1..], b[1..], c[1..]);
    }
  }

  /** The ordering of DataKeys is a strict total order on their key strings. */
  lemma KeyOrderIsTotal(x: DataKey, y: DataKey)
    ensures CompareTo(x, KeyArg(y)) == 0 <==> x == y
    ensures CompareTo(x, KeyArg(y)) == -CompareTo(y, KeyArg(x))
  {
    CompareZeroIffEqual(x.key, y.key);
    CompareAntisymmetric(x.key, y.key);
  }
}
