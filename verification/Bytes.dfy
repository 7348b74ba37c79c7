/** Byte strings, fixed-width integers and the byte-wise order that every codec here shares. */
module Bytes {

  datatype Option<+T> = None | Some(value: T)

  const U16_LIMIT := 0x1_0000
  const U32_LIMIT := 0x1_0000_0000
  const U64_LIMIT := 0x1_0000_0000_0000_0000

  type byte = b: int | 0 <= b < 0x100
  type u16 = n: int | 0 <= n < 0x1_0000
  type u32 = n: int | 0 <= n < 0x1_0000_0000
  type u64 = n: int | 0 <= n < 0x1_0000_0000_0000_0000

  // ----- Big-endian (wire frames, snapshot records) -----

  function Be16(n: u16): (r: seq<byte>)
    ensures |r| == 2
  {
    [n / 0x100, n % 0x100]
  }

  function FromBe16(b: seq<byte>): (n: u16)
    requires |b| == 2
  {
    b[0] as int * 0x100 + b[1]
  }

  function Be32(n: u32): (r: seq<byte>)
    ensures |r| == 4
  {
    Be16(n / 0x1_0000) + Be16(n % 0x1_0000)
  }

  function FromBe32(b: seq<byte>): (n: u32)
    requires |b| == 4
  {
    FromBe16(b[..2]) as int * 0x1_0000 + FromBe16(b[2..])
  }

  function Be64(n: u64): (r: seq<byte>)
    ensures |r| == 8
  {
    Be32(n / 0x1_0000_0000) + Be32(n % 0x1_0000_0000)
  }

  function FromBe64(b: seq<byte>): (n: u64)
    requires |b| == 8
  {
    FromBe32(b[..4]) as int * 0x1_0000_0000 + FromBe32(b[4..])
  }

  lemma Be32RoundTrip(n: u32)
    ensures FromBe32(Be32(n)) == n
  {
    var hi, lo: u16 := n / 0x1_0000, n % 0x1_0000;
    assert Be32(n)[..2] == Be16(hi) && Be32(n)[2..] == Be16(lo);
    assert FromBe16(Be16(hi)) == hi && FromBe16(Be16(lo)) == lo;
  }

  lemma FromBe32RoundTrip(b: seq<byte>)
    requires |b| == 4
    ensures Be32(FromBe32(b)) == b
  {
    var hi, lo := FromBe16(b[..2]), FromBe16(b[2..]);
    assert FromBe32(b) / 0x1_0000 == hi && FromBe32(b) % 0x1_0000 == lo;
    assert Be16(hi) == b[..2] && Be16(lo) == b[2..];
  }

  lemma Be64RoundTrip(n: u64)
    ensures FromBe64(Be64(n)) == n
  {
    var r := Be64(n);
    assert r[..4] == Be32(n / 0x1_0000_0000) && r[4..] == Be32(n % 0x1_0000_0000);
    Be32RoundTrip(n / 0x1_0000_0000);
    Be32RoundTrip(n % 0x1_0000_0000);
  }

  lemma FromBe64RoundTrip(b: seq<byte>)
    requires |b| == 8
    ensures Be64(FromBe64(b)) == b
  {
    FromBe32RoundTrip(b[..4]);
    FromBe32RoundTrip(b[4..]);
    var hi, lo := FromBe32(b[..4]), FromBe32(b[4..]);
    assert FromBe64(b) / 0x1_0000_0000 == hi && FromBe64(b) % 0x1_0000_0000 == lo;
  }

  // ----- Little-endian (ZIP) -----

  function Le16(n: u16): (r: seq<byte>)
    ensures |r| == 2
  {
    [n % 0x100, n / 0x100]
  }

  function FromLe16(b: seq<byte>): (n: u16)
    requires |b| == 2
  {
    b[1] as int * 0x100 + b[0]
  }

  function Le32(n: u32): (r: seq<byte>)
    ensures |r| == 4
  {
    Le16(n % 0x1_0000) + Le16(n / 0x1_0000)
  }

  function FromLe32(b: seq<byte>): (n: u32)
    requires |b| == 4
  {
    FromLe16(b[2..]) as int * 0x1_0000 + FromLe16(b[..2])
  }

  lemma Le32RoundTrip(n: u32)
    ensures FromLe32(Le32(n)) == n
  {
    var hi, lo: u16 := n / 0x1_0000, n % 0x1_0000;
    assert Le32(n)[..2] == Le16(lo) && Le32(n)[2..] == Le16(hi);
    assert FromLe16(Le16(hi)) == hi && FromLe16(Le16(lo)) == lo;
  }

  // ----- Small things -----

  function Least(a: nat, b: nat): (m: nat)
  {
    if a < b then a else b
  }

  predicate NoRepeats<T(==)>(s: seq<T>)
  {
    forall i, j :: 0 <= i < j < |s| ==> s[i] != s[j]
  }

  // ----- Sequences of sequences -----

  function Flatten<T>(ss: seq<seq<T>>): (r: seq<T>)
  {
    if ss == [] then [] else ss[0] + Flatten(ss[1..])
  }

  lemma {:induction false} FlattenConcat<T>(a: seq<seq<T>>, b: seq<seq<T>>)
    ensures Flatten(a + b) == Flatten(a) + Flatten(b)
  {
    if a == [] {
      assert a + b == b;
    } else {
      assert (a + b)[0] == a[0] && (a + b)[1..] == a[1..] + b;
      FlattenConcat(a[1..], b);
    }
  }

  lemma FlattenSnoc<T>(a: seq<seq<T>>, x: seq<T>)
    ensures Flatten(a + [x]) == Flatten(a) + x
  {
    FlattenConcat(a, [x]);
    assert [x][1..] == [];
    assert Flatten([x]) == x;
  }

  // ----- Byte-wise lexicographic order, as Rust orders `str` and `String` -----

  predicate Leq(a: seq<byte>, b: seq<byte>)
  {
    a == [] || (b != [] && (a[0] < b[0] || (a[0] == b[0] && Leq(a[1..], b[1..]))))
  }

  lemma {:induction false} LeqTotal(a: seq<byte>, b: seq<byte>)
    ensures Leq(a, b) || Leq(b, a)
    ensures Leq(a, b) && Leq(b, a) ==> a == b
    decreases |a|
  {
    if a != [] && b != [] && a[0] == b[0] {
      LeqTotal(a[1..], b[1..]);
      assert a == [a[0]] + a[1..] && b == [b[0]] + b[1..];
    }
  }

  lemma {:induction false} LeqTransitive(a: seq<byte>, b: seq<byte>, c: seq<byte>)
    requires Leq(a, b) && Leq(b, c)
    ensures Leq(a, c)
    decreases |a|
  {
    if a != [] && a[0] == b[0] == c[0] {
      LeqTransitive(a[1..], b[1..], c[1..]);
    }
  }

  /** One is a prefix of the other, or they first differ in a smaller byte. */
  lemma {:induction false} LeqIsLexicographic(a: seq<byte>, b: seq<byte>)
    ensures Leq(a, b) <==> a <= b || exists k :: 0 <= k < |a| && k < |b| && a[..k] == b[..k] && a[k] < b[k]
    decreases |a|
  {
    if a != [] && b != [] && a[0] == b[0] {
      var x, y := a[1..], b[1..];
      LeqIsLexicographic(x, y);
      assert a == [a[0]] + x && b == [b[0]] + y;
      forall k | 0 <= k < |x| && k < |y| && x[..k] == y[..k] && x[k] < y[k]
        ensures a[..k + 1] == b[..k + 1] && a[k + 1] < b[k + 1]
      {
        assert a[..k + 1] == [a[0]] + x[..k] && b[..k + 1] == [b[0]] + y[..k];
      }
      forall k | 0 < k < |a| && k < |b| && a[..k] == b[..k] && a[k] < b[k]
        ensures x[..k - 1] == y[..k - 1] && x[k - 1] < y[k - 1]
      {
        assert x[..k - 1] == a[..k][1..] && y[..k - 1] == b[..k][1..];
      }
    } else if a != [] && b != [] && a[0] < b[0] {
      assert a[..0] == b[..0];
    }
  }

  // ----- Stable sort by a byte-string key -----

  /** In key order, with no key repeated. */
  ghost predicate StrictlySorted<T>(key: T -> seq<byte>, s: seq<T>)
  {
    forall i, j :: 0 <= i < j < |s| ==> Leq(key(s[i]), key(s[j])) && key(s[i]) != key(s[j])
  }

  ghost predicate Sorted<T>(key: T -> seq<byte>, s: seq<T>)
  {
    forall i, j :: 0 <= i < j < |s| ==> Leq(key(s[i]), key(s[j]))
  }

  ghost predicate DistinctKeys<T>(key: T -> seq<byte>, s: seq<T>)
  {
    forall i, j :: 0 <= i < j < |s| ==> key(s[i]) != key(s[j])
  }

  /** Puts x in front of the first element whose key is not smaller. */
  function Insert<T>(key: T -> seq<byte>, x: T, s: seq<T>): (r: seq<T>)
    ensures |r| == |s| + 1
  {
    if s == [] || Leq(key(x), key(s[0])) then [x] + s else [s[0]] + Insert(key, x, s[1..])
  }

  /** Insertion from the back, so equal keys keep their order (Rust's `sort_by` is stable). */
  function SortBy<T>(key: T -> seq<byte>, s: seq<T>): (r: seq<T>)
    ensures |r| == |s|
  {
    if s == [] then [] else Insert(key, s[0], SortBy(key, s[1..]))
  }

  lemma {:induction false} InsertContents<T>(key: T -> seq<byte>, x: T, s: seq<T>)
    ensures multiset(Insert(key, x, s)) == multiset(s) + multiset{x}
  {
    if s == [] || Leq(key(x), key(s[0])) {
    } else {
      InsertContents(key, x, s[1..]);
      assert s == [s[0]] + s[1..];
    }
  }

  lemma {:induction false} InsertSorted<T>(key: T -> seq<byte>, x: T, s: seq<T>)
    requires Sorted(key, s)
    ensures Sorted(key, Insert(key, x, s))
  {
    if s == [] {
    } else if Leq(key(x), key(s[0])) {
      forall j | 0 <= j < |s|
        ensures Leq(key(x), key(s[j]))
      {
        if j > 0 { LeqTransitive(key(x), key(s[0]), key(s[j])); }
      }
    } else {
      InsertSorted(key, x, s[1..]);
      InsertContents(key, x, s[1..]);
      LeqTotal(key(x), key(s[0]));
      var rest := Insert(key, x, s[1..]);
      forall j | 0 <= j < |rest|
        ensures Leq(key(s[0]), key(rest[j]))
      {
        assert rest[j] in multiset(rest);
        if rest[j] != x {
          assert rest[j] in s[1..];
        }
      }
    }
  }

  lemma {:induction false} SortByCorrect<T>(key: T -> seq<byte>, s: seq<T>)
    ensures multiset(SortBy(key, s)) == multiset(s)
    ensures Sorted(key, SortBy(key, s))
  {
    if s != [] {
      SortByCorrect(key, s[1..]);
      InsertContents(key, s[0], SortBy(key, s[1..]));
      InsertSorted(key, s[0], SortBy(key, s[1..]));
      assert s == [s[0]] + s[1..];
    }
  }

  lemma {:induction false} DistinctKeysOccurOnce<T>(key: T -> seq<byte>, s: seq<T>, x: T)
    requires DistinctKeys(key, s)
    ensures multiset(s)[x] <= 1
  {
    if s != [] {
      DistinctKeysOccurOnce(key, s[1..], x);
      assert s == [s[0]] + s[1..];
      assert s[0] !in s[1..];
    }
  }

  lemma DistinctKeysPermute<T>(key: T -> seq<byte>, s: seq<T>, r: seq<T>)
    requires multiset(s) == multiset(r) && DistinctKeys(key, s)
    ensures DistinctKeys(key, r)
  {
    forall i, j | 0 <= i < j < |r|
      ensures key(r[i]) != key(r[j])
    {
      DistinctKeysOccurOnce(key, s, r[i]);
      assert r == r[..i] + [r[i]] + r[i + 1..j] + [r[j]] + r[j + 1..];
      assert r[i] in multiset(r) && r[j] in multiset(r);
      var a, b := IndexOf(s, r[i]), IndexOf(s, r[j]);
      assert a != b;
    }
  }

  ghost function IndexOf<T>(s: seq<T>, x: T): (i: nat)
    requires x in multiset(s)
    ensures i < |s| && s[i] == x
  {
    var i :| 0 <= i < |s| && s[i] == x;
    i
  }

  /** Whatever order the elements come in, sorting them by distinct keys gives one result. */
  lemma SortIsCanonical<T>(key: T -> seq<byte>, s: seq<T>, r: seq<T>)
    requires multiset(s) == multiset(r) && DistinctKeys(key, s)
    ensures SortBy(key, s) == SortBy(key, r)
    ensures StrictlySorted(key, SortBy(key, s))
  {
    SortByCorrect(key, s);
    SortByCorrect(key, r);
    DistinctKeysPermute(key, s, SortBy(key, s));
    DistinctKeysPermute(key, s, SortBy(key, r));
    StrictlySortedUnique(key, SortBy(key, s), SortBy(key, r));
  }

  lemma HeadIsLeast<T>(key: T -> seq<byte>, a: seq<T>, x: T)
    requires StrictlySorted(key, a) && x in multiset(a)
    ensures Leq(key(a[0]), key(x)) && (key(a[0]) == key(x) ==> a[0] == x)
  {
    var i := IndexOf(a, x);
    LeqTotal(key(x), key(x));
  }

  lemma TailMultiset<T>(a: seq<T>)
    requires a != []
    ensures multiset(a[1..]) == multiset(a) - multiset{a[0]}
  {
    assert a == [a[0]] + a[1..];
  }

  lemma HeadsAgree<T>(key: T -> seq<byte>, a: seq<T>, b: seq<T>)
    requires StrictlySorted(key, a) && StrictlySorted(key, b) && multiset(a) == multiset(b) && a != []
    ensures b != [] && a[0] == b[0]
  {
    hide StrictlySorted, Leq;
    assert |multiset(a)| == |a| && |multiset(b)| == |b|;
    assert a[0] in multiset(b) && b[0] in multiset(a);
    HeadIsLeast(key, a, b[0]);
    HeadIsLeast(key, b, a[0]);
    LeqTotal(key(a[0]), key(b[0]));
  }

  lemma TailSorted<T>(key: T -> seq<byte>, a: seq<T>)
    requires StrictlySorted(key, a) && a != []
    ensures StrictlySorted(key, a[1..])
  {
    hide Leq;
  }

  lemma {:induction false} StrictlySortedUnique<T>(key: T -> seq<byte>, a: seq<T>, b: seq<T>)
    requires StrictlySorted(key, a) && StrictlySorted(key, b)
    requires multiset(a) == multiset(b)
    ensures a == b
    decreases |a|
  {
    hide StrictlySorted, Leq;
    assert |multiset(a)| == |a| && |multiset(b)| == |b|;
    if a != [] {
      HeadsAgree(key, a, b);
      TailMultiset(a);
      TailMultiset(b);
      TailSorted(key, a);
      TailSorted(key, b);
      StrictlySortedUnique(key, a[1..], b[1..]);
      assert a == [a[0]] + a[1..] && b == [b[0]] + b[1..];
    }
  }
}
