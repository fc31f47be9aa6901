/** Byte strings and their order.  A Go string is a byte sequence and is compared byte by byte; the
    order Python gives its `str` values is the order of their UTF-8 encodings, so one type serves both. */
module Bytes {
  type byte = x: int | 0 <= x < 256
  type Text = seq<byte>

  datatype Option<+T> = None | Some(value: T)

  const NEWLINE: byte := 10
  const SPACE: byte := 32

  /** The bytes of an ASCII literal. */
  function Ascii(s: string): (t: Text)
    requires forall i | 0 <= i < |s| :: s[i] < 128 as char
    ensures |t| == |s|
  {
    seq(|s|, i requires 0 <= i < |s| => s[i] as int)
  }

  predicate Less(a: Text, b: Text) {
    b != [] && (a == [] || a[0] < b[0] || (a[0] == b[0] && Less(a[1..], b[1..])))
  }

  /** `a` is before `b` exactly when it is a proper prefix of it or has the smaller byte where they first
      differ. */
  lemma {:induction false} LessAtFirstDifference(a: Text, b: Text)
    ensures Less(a, b) <==> a < b || exists k :: 0 <= k < |a| && k < |b| && a[..k] == b[..k] && a[k] < b[k]
  {
    if a != [] && b != [] {
      var a1, b1 := a[1..], b[1..];
      LessAtFirstDifference(a1, b1);
      assert a == [a[0]] + a1 && b == [b[0]] + b1;
      if a[0] == b[0] {
        assert a < b <==> a1 < b1;
        if k :| 0 <= k < |a1| && k < |b1| && a1[..k] == b1[..k] && a1[k] < b1[k] {
          assert a[..k + 1] == [a[0]] + a1[..k] && b[..k + 1] == [b[0]] + b1[..k];
          assert a[k + 1] < b[k + 1];
        }
        if k :| 0 <= k < |a| && k < |b| && a[..k] == b[..k] && a[k] < b[k] {
          assert a1[..k - 1] == a[..k][1..] && b1[..k - 1] == b[..k][1..];
          assert a1[k - 1] < b1[k - 1];
        }
      } else {
        assert a[0] < b[0] ==> a[..0] == b[..0];
        forall k | 0 < k < |a| && k < |b| ensures a[..k] != b[..k] {
          assert a[..k][0] != b[..k][0];
        }
      }
    }
  }

  lemma {:induction false} LessTransitive(a: Text, b: Text, c: Text)
    requires Less(a, b) && Less(b, c)
    ensures Less(a, c)
  {
    if a != [] && a[0] == b[0] == c[0] {
      LessTransitive(a[1..], b[1..], c[1..]);
    }
  }

  lemma {:induction false} LessTotal(a: Text, b: Text)
    ensures a == b || Less(a, b) || Less(b, a)
  {
    if a != [] && b != [] && a[0] == b[0] {
      LessTotal(a[1..], b[1..]);
      assert a == [a[0]] + a[1..] && b == [b[0]] + b[1..];
    }
  }

  lemma {:induction false} LessIrreflexive(a: Text)
    ensures !Less(a, a)
  {
    if a != [] { LessIrreflexive(a[1..]); }
  }

  lemma LessAsymmetric(a: Text, b: Text)
    requires Less(a, b)
    ensures !Less(b, a)
  {
    if Less(b, a) {
      LessTransitive(a, b, a);
      LessIrreflexive(a);
    }
  }

  ghost predicate StrictlySorted(s: seq<Text>) {
    forall i, j :: 0 <= i < j < |s| ==> Less(s[i], s[j])
  }

  ghost function Elements<T>(s: seq<T>): set<T> {
    set x | x in s
  }

  lemma SortedDistinct(s: seq<Text>)
    requires StrictlySorted(s)
    ensures forall i, j :: 0 <= i < j < |s| ==> s[i] != s[j]
  {
    forall i, j | 0 <= i < j < |s| ensures s[i] != s[j] {
      LessIrreflexive(s[i]);
    }
  }

  /** A strictly sorted sequence is determined by its elements. */
  lemma {:induction false} SortedUnique(a: seq<Text>, b: seq<Text>)
    requires StrictlySorted(a) && StrictlySorted(b) && Elements(a) == Elements(b)
    ensures a == b
  {
    EmptyElements(a);
    EmptyElements(b);
    if a != [] {
      assert a[0] in Elements(a) && b[0] in Elements(b);
      if a[0] != b[0] {
        assert b[0] in Elements(a) && a[0] in Elements(b);
        assert Less(a[0], b[0]) && Less(b[0], a[0]);
        LessAsymmetric(a[0], b[0]);
      }
      SortedDistinct(a);
      SortedDistinct(b);
      assert Elements(a[1..]) == Elements(a) - {a[0]} by { TailElements(a); }
      assert Elements(b[1..]) == Elements(b) - {b[0]} by { TailElements(b); }
      SortedUnique(a[1..], b[1..]);
      assert a == [a[0]] + a[1..] && b == [b[0]] + b[1..];
    }
  }

  lemma EmptyElements<T>(s: seq<T>)
    ensures Elements(s) == {} <==> s == []
  {
    if s != [] { assert s[0] in Elements(s); }
  }

  lemma TailElements(s: seq<Text>)
    requires s != [] && forall i, j :: 0 <= i < j < |s| ==> s[i] != s[j]
    ensures Elements(s[1..]) == Elements(s) - {s[0]}
  {
    forall x ensures x in Elements(s[1..]) <==> x in Elements(s) && x != s[0] {
      if x in s && x != s[0] {
        var i :| 0 <= i < |s| && s[i] == x;
        assert s[1..][i - 1] == x;
      }
    }
  }

  /** Insert a key that is not yet present into a strictly sorted list. */
  function Insert(s: seq<Text>, k: Text): (r: seq<Text>) {
    if s == [] then [k]
    else if Less(k, s[0]) then [k] + s
    else [s[0]] + Insert(s[1..], k)
  }

  lemma {:induction false} InsertSorted(s: seq<Text>, k: Text)
    requires StrictlySorted(s) && k !in s
    ensures StrictlySorted(Insert(s, k)) && Elements(Insert(s, k)) == Elements(s) + {k}
  {
    if s == [] {
    } else if Less(k, s[0]) {
      var r := [k] + s;
      forall i, j | 0 <= i < j < |r| ensures Less(r[i], r[j]) {
        if i == 0 && j > 1 { LessTransitive(k, s[0], s[j - 1]); }
      }
      assert Elements(r) == Elements(s) + {k};
    } else {
      LessTotal(k, s[0]);
      InsertSorted(s[1..], k);
      var t := Insert(s[1..], k);
      var r := [s[0]] + t;
      forall i, j | 0 <= i < j < |r| ensures Less(r[i], r[j]) {
        if i == 0 {
          assert r[j] == t[j - 1] && t[j - 1] in Elements(t);
          assert r[j] in s[1..] || r[j] == k;
        }
      }
      assert s == [s[0]] + s[1..];
      assert Elements(r) == {s[0]} + Elements(t);
      assert Elements(s) == {s[0]} + Elements(s[1..]);
    }
  }

  ghost function SortedSeq(keys: set<Text>): (s: seq<Text>)
    ensures StrictlySorted(s) && Elements(s) == keys
  {
    if keys == {} then []
    else
      var k :| k in keys;
      var rest := SortedSeq(keys - {k});
      assert k !in Elements(rest);
      InsertSorted(rest, k);
      Insert(rest, k)
  }

  /** Collect the keys of a set and sort them, as the callers do with a map's keys. */
  method SortedKeys(keys: set<Text>) returns (s: seq<Text>)
    ensures StrictlySorted(s) && Elements(s) == keys
  {
    s := [];
    var rest := keys;
    while rest != {}
      invariant rest <= keys && StrictlySorted(s) && Elements(s) == keys - rest
      decreases rest
    {
      var k :| k in rest;
      assert k !in Elements(s);
      InsertSorted(s, k);
      s := Insert(s, k);
      rest := rest - {k};
    }
  }
}
