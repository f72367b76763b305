/** Strings made by joining fields with a separator, where one field in the middle may hold the separator itself. */
module DelimitedText {

  predicate SepFree(sep: char, text: string) {
    sep !in text
  }

  predicate AllSepFree(sep: char, fields: seq<string>) {
    forall f :: f in fields ==> SepFree(sep, f)
  }

  /** Every field followed by the separator. */
  function Before(sep: char, fields: seq<string>): string {
    if fields == [] then "" else fields[0] + [sep] + Before(sep, fields[1..])
  }

  /** Every field preceded by the separator. */
  function Behind(sep: char, fields: seq<string>): string {
    if fields == [] then "" else Behind(sep, fields[..|fields| - 1]) + [sep] + fields[|fields| - 1]
  }

  function Text(sep: char, left: seq<string>, middle: string, right: seq<string>): string {
    Before(sep, left) + middle + Behind(sep, right)
  }

  lemma {:induction false} BeforeOfConcat(sep: char, xs: seq<string>, ys: seq<string>)
    ensures Before(sep, xs + ys) == Before(sep, xs) + Before(sep, ys)
  {
    if xs == [] {
      assert xs + ys == ys;
    } else {
      assert (xs + ys)[1..] == xs[1..] + ys;
      BeforeOfConcat(sep, xs[1..], ys);
    }
  }

  lemma {:induction false} BehindOfConcat(sep: char, xs: seq<string>, ys: seq<string>)
    ensures Behind(sep, xs + ys) == Behind(sep, xs) + Behind(sep, ys)
  {
    if ys == [] {
      assert xs + ys == xs;
    } else {
      var n := |ys| - 1;
      BehindOfConcat(sep, xs, ys[..n]);
      assert (xs + ys)[..|xs| + n] == xs + ys[..n];
    }
  }

  lemma BeforeTwo(sep: char, a: string, b: string)
    ensures Before(sep, [a, b]) == a + [sep] + b + [sep]
  {
    assert [a, b][1..] == [b] && [b][1..] == [];
    assert Before(sep, [b]) == b + [sep] + Before(sep, []) == b + [sep];
  }

  lemma BeforeFour(sep: char, a: string, b: string, c: string, d: string)
    ensures Before(sep, [a, b, c, d]) == a + [sep] + b + [sep] + c + [sep] + d + [sep]
  {
    assert [a, b, c, d] == [a, b] + [c, d];
    BeforeOfConcat(sep, [a, b], [c, d]);
    BeforeTwo(sep, a, b);
    BeforeTwo(sep, c, d);
  }

  lemma BehindOne(sep: char, a: string)
    ensures Behind(sep, [a]) == [sep] + a
  {
    assert [a][..0] == [];
    assert Behind(sep, [a]) == Behind(sep, []) + [sep] + a;
  }

  lemma BehindTwo(sep: char, a: string, b: string)
    ensures Behind(sep, [a, b]) == [sep] + a + [sep] + b
  {
    assert [a, b] == [a] + [b];
    BehindOfConcat(sep, [a], [b]);
    BehindOne(sep, a);
    BehindOne(sep, b);
  }

  lemma FirstFieldUnique(sep: char, a: string, x: string, b: string, y: string)
    requires SepFree(sep, a) && SepFree(sep, b) && a + [sep] + x == b + [sep] + y
    ensures a == b && x == y
  {
    var text := a + [sep] + x;
    assert text[|a|] == sep && text[|b|] == sep;
    assert forall k :: 0 <= k < |a| ==> text[k] == a[k];
    assert forall k :: 0 <= k < |b| ==> text[k] == b[k];
    assert |a| == |b|;
    assert a == text[..|a|] && x == text[|a| + 1..];
    assert b == text[..|b|] && y == text[|b| + 1..];
  }

  lemma LastFieldUnique(sep: char, x: string, a: string, y: string, b: string)
    requires SepFree(sep, a) && SepFree(sep, b) && x + [sep] + a == y + [sep] + b
    ensures x == y && a == b
  {
    var text := x + [sep] + a;
    assert text[|x|] == sep && text[|y|] == sep;
    assert forall k :: |x| < k < |text| ==> text[k] == a[k - |x| - 1];
    assert forall k :: |y| < k < |text| ==> text[k] == b[k - |y| - 1];
    assert |x| == |y|;
    assert x == text[..|x|] && a == text[|x| + 1..];
    assert y == text[..|y|] && b == text[|y| + 1..];
  }

  lemma {:induction false} LeftUnique(sep: char, l1: seq<string>, x1: string, l2: seq<string>, x2: string)
    requires |l1| == |l2| && AllSepFree(sep, l1) && AllSepFree(sep, l2)
    requires Before(sep, l1) + x1 == Before(sep, l2) + x2
    ensures l1 == l2 && x1 == x2
    decreases |l1|
  {
    if l1 == [] {
      assert "" + x1 == x1 && "" + x2 == x2;
    } else {
      var t1, t2 := Before(sep, l1[1..]) + x1, Before(sep, l2[1..]) + x2;
      assert Before(sep, l1) + x1 == l1[0] + [sep] + t1;
      assert Before(sep, l2) + x2 == l2[0] + [sep] + t2;
      FirstFieldUnique(sep, l1[0], t1, l2[0], t2);
      LeftUnique(sep, l1[1..], x1, l2[1..], x2);
      assert l1 == [l1[0]] + l1[1..] && l2 == [l2[0]] + l2[1..];
    }
  }

  lemma {:induction false} RightUnique(sep: char, x1: string, r1: seq<string>, x2: string, r2: seq<string>)
    requires |r1| == |r2| && AllSepFree(sep, r1) && AllSepFree(sep, r2)
    requires x1 + Behind(sep, r1) == x2 + Behind(sep, r2)
    ensures x1 == x2 && r1 == r2
    decreases |r1|
  {
    if r1 == [] {
      assert x1 + "" == x1 && x2 + "" == x2;
    } else {
      var n := |r1| - 1;
      var t1, t2 := x1 + Behind(sep, r1[..n]), x2 + Behind(sep, r2[..n]);
      assert x1 + Behind(sep, r1) == t1 + [sep] + r1[n];
      assert x2 + Behind(sep, r2) == t2 + [sep] + r2[n];
      LastFieldUnique(sep, t1, r1[n], t2, r2[n]);
      RightUnique(sep, x1, r1[..n], x2, r2[..n]);
      assert r1 == r1[..n] + [r1[n]] && r2 == r2[..n] + [r2[n]];
    }
  }

  /** The text determines its fields, although the middle one may hold the separator any number of times. */
  lemma TextIsUnique(sep: char, l1: seq<string>, m1: string, r1: seq<string>, l2: seq<string>, m2: string,
                     r2: seq<string>)
    requires |l1| == |l2| && |r1| == |r2|
    requires AllSepFree(sep, l1) && AllSepFree(sep, l2) && AllSepFree(sep, r1) && AllSepFree(sep, r2)
    ensures Text(sep, l1, m1, r1) == Text(sep, l2, m2, r2) <==> l1 == l2 && m1 == m2 && r1 == r2
  {
    if Text(sep, l1, m1, r1) == Text(sep, l2, m2, r2) {
      assert Text(sep, l1, m1, r1) == Before(sep, l1) + (m1 + Behind(sep, r1));
      assert Text(sep, l2, m2, r2) == Before(sep, l2) + (m2 + Behind(sep, r2));
      LeftUnique(sep, l1, m1 + Behind(sep, r1), l2, m2 + Behind(sep, r2));
      RightUnique(sep, m1, r1, m2, r2);
    }
  }
}
