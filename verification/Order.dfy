/**
 * Election ids as sequences of code units, compared the way JavaScript compares `$oid` strings and
 * Buffer.compare compares bytes.
 */
module Order {

  predicate Less(a: seq<int>, b: seq<int>) {
    b != [] && (a == [] || a[0] < b[0] || (a[0] == b[0] && Less(a[1..], b[1..])))
  }

  lemma {:induction false} Irreflexive(a: seq<int>)
    ensures !Less(a, a)
  {
    if a == [] {
    } else {
      Irreflexive(a[1..]);
    }
  }

  lemma {:induction false} Transitive(a: seq<int>, b: seq<int>, c: seq<int>)
    requires Less(a, b) && Less(b, c)
    ensures Less(a, c)
  {
    if a != [] && a[0] == b[0] == c[0] {
      Transitive(a[1..], b[1..], c[1..]);
    }
  }

  lemma {:induction false} Total(a: seq<int>, b: seq<int>)
    ensures Less(a, b) || a == b || Less(b, a)
  {
    if a != [] && b != [] && a[0] == b[0] {
      Total(a[1..], b[1..]);
      assert a == [a[0]] + a[1..] && b == [b[0]] + b[1..];
    }
  }

  /** Not above: the order in which election ids may advance. */
  predicate AtMost(a: seq<int>, b: seq<int>) {
    !Less(b, a)
  }

  lemma AtMostTransitive(a: seq<int>, b: seq<int>, c: seq<int>)
    requires AtMost(a, b) && AtMost(b, c)
    ensures AtMost(a, c)
  {
    if Less(c, a) {
      Total(a, b);
      if Less(a, b) {
        Transitive(c, a, b);
      }
    }
  }

  /** A first difference decides; without one the shorter sequence comes first. */
  lemma {:induction false} DecidedAt(a: seq<int>, b: seq<int>, i: nat)
    requires i <= |a| && i <= |b| && a[..i] == b[..i]
    requires i == |a| || i == |b| || a[i] != b[i]
    ensures Less(a, b) <==> i < |b| && (i == |a| || a[i] < b[i])
    decreases i
  {
    if i == 0 {
    } else {
      assert a[0] == a[..i][0] == b[..i][0] == b[0];
      assert a[1..][..i - 1] == a[..i][1..] == b[..i][1..] == b[1..][..i - 1];
      DecidedAt(a[1..], b[1..], i - 1);
    }
  }

  /** `compareObjectIds` without Buffer.compare: the first difference, else the lengths. */
  method CompareObjectIds(a: seq<int>, b: seq<int>) returns (r: int)
    ensures r == -1 || r == 0 || r == 1
    ensures r == -1 <==> Less(a, b)
    ensures r == 1 <==> Less(b, a)
    ensures r == 0 <==> a == b
  {
    var x, y := |a|, |b|;
    var len := if x < y then x else y;
    var i := 0;
    while i < len
      invariant i <= len && a[..i] == b[..i]
    {
      if a[i] != b[i] {
        break;
      }
      i := i + 1;
    }
    DecidedAt(a, b, i);
    DecidedAt(b, a, i);
    if i == x == y {
      assert a == a[..i] && b == b[..i];
    }
    var u, v := if i != len then a[i] else x, if i != len then b[i] else y;
    r := if u < v then -1 else if v < u then 1 else 0;
  }
}
