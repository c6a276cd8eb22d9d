/** Sorted tables: the part of the storage engine that the table layer relies on. A table is a sequence of
    records strictly ascending by key; keys are compared like byte strings, a prefix before its extensions. */
module Records {

  datatype Record = Record(key: string, value: string)

  predicate Less(a: string, b: string) {
    if b == [] then false
    else if a == [] then true
    else a[0] < b[0] || (a[0] == b[0] && Less(a[1..], b[1..]))
  }

  /** `a` and `b` agree up to `k`; there `a` ends, or has the smaller byte. */
  predicate LessAt(a: string, b: string, k: nat) {
    k <= |a| && k < |b| && a[..k] == b[..k] && (k == |a| || a[k] < b[k])
  }

  /** Beyond the first byte, comparing goes on behind it. */
  lemma LessAtRest(a: string, b: string, k: nat)
    requires 0 < k <= |a| && k < |b|
    ensures LessAt(a, b, k) <==> a[0] == b[0] && LessAt(a[1..], b[1..], k - 1)
  {
    assert a[..k] == [a[0]] + a[1..][..k - 1] && b[..k] == [b[0]] + b[1..][..k - 1];
    assert a[..k] == b[..k] <==> a[0] == b[0] && a[1..][..k - 1] == b[1..][..k - 1];
  }

  /** `Less` is the order of byte strings: the first difference decides, and a prefix comes before its extensions. */
  lemma {:induction false} LessIsByteOrder(a: string, b: string)
    ensures Less(a, b) <==> exists k: nat :: LessAt(a, b, k)
  {
    forall k: nat | 0 < k <= |a| && k < |b|
      ensures LessAt(a, b, k) <==> a[0] == b[0] && LessAt(a[1..], b[1..], k - 1)
    {
      LessAtRest(a, b, k);
    }
    assert LessAt(a, b, 0) <==> b != [] && (a == [] || a[0] < b[0]);
    if a != [] && b != [] && a[0] == b[0] {
      LessIsByteOrder(a[1..], b[1..]);
      if k: nat :| LessAt(a[1..], b[1..], k) {
        assert LessAt(a, b, k + 1);
      }
    }
  }

  lemma {:induction false} LessTotal(a: string, b: string)
    ensures Less(a, b) || a == b || Less(b, a)
    ensures !(Less(a, b) && Less(b, a))
    ensures !Less(a, a)
  {
    if a != [] {
      LessTotal(a[1..], a[1..]);
    }
    if a != [] && b != [] {
      LessTotal(a[1..], b[1..]);
      assert a == [a[0]] + a[1..] && b == [b[0]] + b[1..];
    }
  }

  lemma {:induction false} LessTransitive(a: string, b: string, c: string)
    requires Less(a, b) && Less(b, c)
    ensures Less(a, c)
  {
    if a != [] && a[0] == b[0] && b[0] == c[0] {
      LessTransitive(a[1..], b[1..], c[1..]);
    }
  }

  predicate Sorted(t: seq<Record>) {
    forall i, j :: 0 <= i < j < |t| ==> Less(t[i].key, t[j].key)
  }

  /** The first position whose key is not less than `key`, at or after `from`. */
  function Seek(t: seq<Record>, key: string, from: nat := 0): (i: nat)
    requires from <= |t|
    ensures from <= i <= |t|
    ensures forall j :: from <= j < i ==> Less(t[j].key, key)
    ensures i < |t| ==> !Less(t[i].key, key)
    decreases |t| - from
  {
    if from < |t| && Less(t[from].key, key) then Seek(t, key, from + 1) else from
  }

  predicate Has(t: seq<Record>, key: string) {
    var i := Seek(t, key);
    i < |t| && t[i].key == key
  }

  function Insert(t: seq<Record>, key: string, value: string): seq<Record> {
    var i := Seek(t, key);
    t[..i] + [Record(key, value)] + t[i..]
  }

  function Update(t: seq<Record>, key: string, value: string): seq<Record>
    requires Has(t, key)
  {
    t[Seek(t, key) := Record(key, value)]
  }

  function Remove(t: seq<Record>, i: nat): seq<Record>
    requires i < |t|
  {
    t[..i] + t[i + 1..]
  }

  /** Removes the records from position `lo` up to but excluding position `hi`. */
  function Cut(t: seq<Record>, lo: nat, hi: nat): seq<Record>
    requires lo <= hi <= |t|
  {
    t[..lo] + t[hi..]
  }

  /** Equal keys stand at equal positions. */
  lemma KeyPosition(t: seq<Record>, i: nat, j: nat)
    requires Sorted(t) && i < |t| && j < |t|
    ensures t[i].key == t[j].key <==> i == j
  {
    LessTotal(t[i].key, t[j].key);
  }

  lemma SeekFinds(t: seq<Record>, i: nat)
    requires Sorted(t) && i < |t|
    ensures Seek(t, t[i].key) == i
  {
    LessTotal(t[i].key, t[i].key);
  }

  /** `Seek` finds the least key that is not less than the one looked for; everything behind is greater. */
  lemma SeekSplits(t: seq<Record>, key: string)
    requires Sorted(t)
    ensures forall j :: 0 <= j < |t| ==> (Less(t[j].key, key) <==> j < Seek(t, key))
    ensures !Has(t, key) ==> forall j :: Seek(t, key) <= j < |t| ==> Less(key, t[j].key)
  {
    var i := Seek(t, key);
    if i < |t| {
      forall j | i <= j < |t|
        ensures !Less(t[j].key, key)
        ensures !Has(t, key) ==> Less(key, t[j].key)
      {
        LessTotal(t[i].key, key);
        LessTotal(t[j].key, key);
        if i < j && t[i].key != key {
          LessTransitive(key, t[i].key, t[j].key);
        }
      }
    }
  }

  lemma InsertKeepsSorted(t: seq<Record>, key: string, value: string)
    requires Sorted(t) && !Has(t, key)
    ensures Sorted(Insert(t, key, value))
  {
    SeekSplits(t, key);
  }

  lemma CutKeepsSorted(t: seq<Record>, lo: nat, hi: nat)
    requires Sorted(t) && lo <= hi <= |t|
    ensures Sorted(Cut(t, lo, hi))
  {
  }

  ghost predicate Holds(t: seq<Record>, key: string) {
    exists i :: 0 <= i < |t| && t[i].key == key
  }

  lemma KeysDistinct(t: seq<Record>)
    requires Sorted(t)
    ensures forall i, j :: 0 <= i < |t| && 0 <= j < |t| && t[i].key == t[j].key ==> i == j
  {
    forall i, j | 0 <= i < |t| && 0 <= j < |t| && t[i].key == t[j].key ensures i == j {
      KeyPosition(t, i, j);
    }
  }

  /** The finite map a sorted table stands for. */
  function Contents(t: seq<Record>): (m: map<string, string>)
    requires Sorted(t)
    ensures forall i :: 0 <= i < |t| ==> t[i].key in m && m[t[i].key] == t[i].value
    ensures forall k :: k in m <==> Holds(t, k)
  {
    KeysDistinct(t);
    map i | 0 <= i < |t| :: t[i].key := t[i].value
  }

  lemma ContentsIs(t: seq<Record>, m: map<string, string>)
    requires Sorted(t)
    requires forall i :: 0 <= i < |t| ==> t[i].key in m && m[t[i].key] == t[i].value
    requires forall k :: k in m ==> Holds(t, k)
    ensures Contents(t) == m
  {
    forall k ensures k in Contents(t) <==> k in m
    {
      if Holds(t, k) {
        var i :| 0 <= i < |t| && t[i].key == k;
      }
    }
    forall k | k in m ensures Contents(t)[k] == m[k] {
      var i :| 0 <= i < |t| && t[i].key == k;
    }
  }

  lemma HasIsMember(t: seq<Record>, key: string)
    requires Sorted(t)
    ensures Has(t, key) <==> key in Contents(t)
    ensures Has(t, key) ==> Contents(t)[key] == t[Seek(t, key)].value
  {
    if Holds(t, key) {
      var i :| 0 <= i < |t| && t[i].key == key;
      SeekFinds(t, i);
    }
  }

  lemma InsertHolds(t: seq<Record>, key: string, value: string, k: string)
    ensures Holds(Insert(t, key, value), k) <==> k == key || Holds(t, k)
  {
    var u, i := Insert(t, key, value), Seek(t, key);
    assert u[i].key == key;
    if Holds(t, k) {
      var j :| 0 <= j < |t| && t[j].key == k;
      assert u[if j < i then j else j + 1].key == k;
    }
    if Holds(u, k) {
      var j :| 0 <= j < |u| && u[j].key == k;
      assert j == i || t[if j < i then j else j - 1].key == k;
    }
  }

  lemma InsertContents(t: seq<Record>, key: string, value: string)
    requires Sorted(t) && !Has(t, key)
    ensures Sorted(Insert(t, key, value))
    ensures Contents(Insert(t, key, value)) == Contents(t)[key := value]
  {
    InsertKeepsSorted(t, key, value);
    HasIsMember(t, key);
    var u, i, m := Insert(t, key, value), Seek(t, key), Contents(t)[key := value];
    forall k | k in m ensures Holds(u, k) {
      InsertHolds(t, key, value, k);
    }
    forall x | 0 <= x < |u| ensures u[x].key in m && m[u[x].key] == u[x].value {
      assert u[x] == if x < i then t[x] else if x == i then Record(key, value) else t[x - 1];
    }
    ContentsIs(u, m);
  }

  lemma UpdateContents(t: seq<Record>, key: string, value: string)
    requires Sorted(t) && Has(t, key)
    ensures Sorted(Update(t, key, value))
    ensures Contents(Update(t, key, value)) == Contents(t)[key := value]
  {
    var u, i := Update(t, key, value), Seek(t, key);
    KeysDistinct(t);
    forall k | k in Contents(t)[key := value] ensures Holds(u, k) {
      if k == key {
        assert u[i].key == k;
      } else {
        var j :| 0 <= j < |t| && t[j].key == k;
        assert u[j].key == k;
      }
    }
    ContentsIs(u, Contents(t)[key := value]);
  }

  /** The keys at the positions from `lo` up to but excluding `hi`. */
  function KeysBetween(t: seq<Record>, lo: nat, hi: nat): set<string>
    requires lo <= hi <= |t|
  {
    set i | lo <= i < hi :: t[i].key
  }

  lemma CutHolds(t: seq<Record>, lo: nat, hi: nat, k: string)
    requires Sorted(t) && lo <= hi <= |t|
    requires k in Contents(t) && k !in KeysBetween(t, lo, hi)
    ensures Holds(Cut(t, lo, hi), k)
  {
    var j :| 0 <= j < |t| && t[j].key == k;
    assert Cut(t, lo, hi)[if j < lo then j else j - (hi - lo)].key == k;
  }

  lemma CutAt(t: seq<Record>, lo: nat, hi: nat, x: nat)
    requires Sorted(t) && lo <= hi <= |t| && x < |Cut(t, lo, hi)|
    ensures var r := Cut(t, lo, hi)[x];
      r.key in Contents(t) && Contents(t)[r.key] == r.value && r.key !in KeysBetween(t, lo, hi)
  {
    var y := if x < lo then x else x + (hi - lo);
    assert Cut(t, lo, hi)[x] == t[y];
    KeysDistinct(t);
  }

  /** Cutting a range removes exactly the keys in it and keeps every other record. */
  lemma CutContents(t: seq<Record>, lo: nat, hi: nat)
    requires Sorted(t) && lo <= hi <= |t|
    ensures Sorted(Cut(t, lo, hi))
    ensures Contents(Cut(t, lo, hi)) == Contents(t) - KeysBetween(t, lo, hi)
  {
    CutKeepsSorted(t, lo, hi);
    var m := Contents(t) - KeysBetween(t, lo, hi);
    forall k | k in m ensures Holds(Cut(t, lo, hi), k) {
      CutHolds(t, lo, hi, k);
    }
    forall x | 0 <= x < |Cut(t, lo, hi)|
      ensures Cut(t, lo, hi)[x].key in m && m[Cut(t, lo, hi)[x].key] == Cut(t, lo, hi)[x].value
    {
      CutAt(t, lo, hi, x);
    }
    ContentsIs(Cut(t, lo, hi), m);
  }

  lemma RemoveContents(t: seq<Record>, i: nat)
    requires Sorted(t) && i < |t|
    ensures Sorted(Remove(t, i))
    ensures Contents(Remove(t, i)) == Contents(t) - {t[i].key}
  {
    CutContents(t, i, i + 1);
    assert Remove(t, i) == Cut(t, i, i + 1);
    assert KeysBetween(t, i, i + 1) == {t[i].key};
  }
}
