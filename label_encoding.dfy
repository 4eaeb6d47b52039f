/** scikit-learn's `LabelEncoder`, as ia/train.py uses it: `fit_transform`
    learns `classes_`, the distinct values in sorted order, and replaces each
    value by its index there. Strings sort by code point; a `None` value is
    kept as the last class. A column holding any other kind of value is
    refused with TypeError, as mixing it with strings is. */
module LabelEncoding {
  import opened Wrappers
  import opened Values
  import opened Strings
  import opened Seqs

  predicate StrictlySorted(s: seq<string>) {
    forall i, j :: 0 <= i < j < |s| ==> LexLess(s[i], s[j])
  }

  lemma SortedCons(x: string, s: seq<string>)
    requires StrictlySorted(s)
    requires forall y :: y in s ==> LexLess(x, y)
    ensures StrictlySorted([x] + s)
  {
    var t := [x] + s;
    forall i, j | 0 <= i < j < |t| ensures LexLess(t[i], t[j]) {
      if i > 0 {
        assert t[i] == s[i - 1] && t[j] == s[j - 1];
      } else {
        assert t[j] == s[j - 1];
      }
    }
  }

  /** `x` put into its place in a strictly sorted sequence, unless it is there already. */
  function Insert(x: string, s: seq<string>): (r: seq<string>)
    requires StrictlySorted(s)
    ensures StrictlySorted(r)
    ensures forall y :: y in r <==> y == x || y in s
    decreases |s|
  {
    if s == [] then [x]
    else if x == s[0] then s
    else if LexLess(x, s[0]) then
      assert forall y :: y in s ==> LexLess(x, y) by {
        forall y | y in s ensures LexLess(x, y) {
          if y != s[0] {
            var k :| 0 <= k < |s| && s[k] == y;
            LexLessTransitive(x, s[0], y);
          }
        }
      }
      SortedCons(x, s);
      [x] + s
    else
      LexLessTotal(x, s[0]);
      var rest := Insert(x, s[1..]);
      assert forall y :: y in rest ==> LexLess(s[0], y) by {
        forall y | y in rest ensures LexLess(s[0], y) {
          if y != x {
            var k :| 0 <= k < |s[1..]| && s[1..][k] == y;
            assert s[k + 1] == y;
          }
        }
      }
      SortedCons(s[0], rest);
      assert forall y :: y in s <==> y == s[0] || y in s[1..] by {
        assert s == [s[0]] + s[1..];
      }
      [s[0]] + rest
  }

  /** The distinct strings of `values`, sorted. */
  function SortedDistinct(values: seq<string>): (r: seq<string>)
    ensures StrictlySorted(r)
    ensures forall y :: y in r <==> y in values
  {
    if values == [] then []
    else
      var p := values[..|values| - 1];
      assert forall y :: y in values <==> y in p || y == values[|values| - 1] by {
        assert values == p + [values[|values| - 1]];
      }
      Insert(values[|values| - 1], SortedDistinct(p))
  }

  /** Two strictly sorted sequences with the same elements are the same sequence. */
  lemma {:induction false} SortedUnique(a: seq<string>, b: seq<string>)
    requires StrictlySorted(a) && StrictlySorted(b)
    requires forall y :: y in a <==> y in b
    ensures a == b
    decreases |a|
  {
    if a != [] && b != [] {
      assert a[0] in b && b[0] in a;
      if a[0] != b[0] {
        var k :| 0 <= k < |b| && b[k] == a[0];
        var m :| 0 <= m < |a| && a[m] == b[0];
        assert LexLess(b[0], a[0]) && LexLess(a[0], b[0]);
        LexLessAsymmetric(a[0], b[0]);
      }
      forall y ensures y in a[1..] <==> y in b[1..] {
        if y in a[1..] {
          var k :| 0 <= k < |a[1..]| && a[1..][k] == y;
          assert LexLess(a[0], y);
          LexLessIrreflexive(y);
          assert y in b && y != b[0];
          assert b == [b[0]] + b[1..];
        }
        if y in b[1..] {
          var k :| 0 <= k < |b[1..]| && b[1..][k] == y;
          assert LexLess(b[0], y);
          LexLessIrreflexive(y);
          assert y in a && y != a[0];
          assert a == [a[0]] + a[1..];
        }
      }
      SortedUnique(a[1..], b[1..]);
      assert a == [a[0]] + a[1..] && b == [b[0]] + b[1..];
    } else {
      SameElementsEmpty(a, b);
    }
  }

  lemma SameElementsEmpty<T>(a: seq<T>, b: seq<T>)
    requires forall y :: y in a <==> y in b
    ensures a == [] <==> b == []
  {
    if a != [] {
      assert a[0] in a;
    }
    if b != [] {
      assert b[0] in b;
    }
  }

  lemma StrictlySortedNoDup(s: seq<string>)
    requires StrictlySorted(s)
    ensures NoDup(s)
  {
    forall i, j | 0 <= i < j < |s| ensures s[i] != s[j] {
      if s[i] == s[j] {
        LexLessIrreflexive(s[i]);
      }
    }
  }

  // ---------------------------------------------------------------------
  // Classes of a column

  /** A column the encoder accepts: strings, possibly with `None`. */
  predicate Encodable(values: seq<Json>) {
    forall i :: 0 <= i < |values| ==> values[i].JStr? || values[i].JNull?
  }

  function StringsOf(values: seq<Json>): (r: seq<string>)
    ensures forall x :: x in r <==> JStr(x) in values
  {
    if values == [] then []
    else
      var p := values[..|values| - 1];
      var v := values[|values| - 1];
      assert forall x :: x in values <==> x in p || x == v by {
        assert values == p + [v];
      }
      StringsOf(p) + if v.JStr? then [v.s] else []
  }

  function JStrs(ss: seq<string>): (r: seq<Json>)
    ensures |r| == |ss|
    ensures forall i :: 0 <= i < |ss| ==> r[i] == JStr(ss[i])
  {
    seq(|ss|, i requires 0 <= i < |ss| => JStr(ss[i]))
  }

  /** The order of `classes_`: strings ascending, and `None` only in last place. */
  predicate ClassOrder(c: seq<Json>) {
    forall i, j :: 0 <= i < j < |c| ==> c[i].JStr? && (c[j].JStr? ==> LexLess(c[i].s, c[j].s))
  }

  /** The sorted distinct strings of an accepted column, then `None` if it occurs. */
  function Fitted(values: seq<Json>): (c: seq<Json>)
    requires Encodable(values)
    ensures ClassOrder(c)
    ensures forall v :: v in c <==> v in values
  {
    var ss := SortedDistinct(StringsOf(values));
    var strs := JStrs(ss);
    var c := strs + if JNull in values then [JNull] else [];
    FittedOrder(ss, c);
    forall v | v in values ensures v in c {
      var k :| 0 <= k < |values| && values[k] == v;
      if v.JStr? {
        var m :| 0 <= m < |ss| && ss[m] == v.s;
        assert c[m] == v;
      }
    }
    c
  }

  lemma FittedOrder(ss: seq<string>, c: seq<Json>)
    requires StrictlySorted(ss)
    requires c == JStrs(ss) || c == JStrs(ss) + [JNull]
    ensures ClassOrder(c)
  {
    forall i, j | 0 <= i < j < |c| ensures c[i].JStr? && (c[j].JStr? ==> LexLess(c[i].s, c[j].s)) {
      assert i < |ss|;
    }
  }

  /** `classes_` after a fit on `values`. */
  function ClassesOf(values: seq<Json>): (r: Result<seq<Json>, PyError>)
    ensures r.Failure? <==> !Encodable(values)
    ensures r.Failure? ==> r.error == TypeError
    ensures r.Success? ==> ClassOrder(r.value)
    ensures r.Success? ==> forall v :: v in r.value <==> v in values
  {
    if !Encodable(values) then Failure(TypeError) else Success(Fitted(values))
  }

  lemma ClassesNoDup(values: seq<Json>)
    requires ClassesOf(values).Success?
    ensures NoDup(ClassesOf(values).value)
  {
    var c := ClassesOf(values).value;
    forall i, j | 0 <= i < j < |c| ensures c[i] != c[j] {
      if c[j].JStr? {
        LexLessIrreflexive(c[i].s);
      }
    }
  }

  /** The classes depend only on which values occur, not on their order or multiplicity. */
  lemma ClassesDependOnValuesOnly(a: seq<Json>, b: seq<Json>)
    requires forall v :: v in a <==> v in b
    ensures ClassesOf(a) == ClassesOf(b)
  {
    if Encodable(a) {
      assert Encodable(b) by {
        forall i | 0 <= i < |b| ensures b[i].JStr? || b[i].JNull? {
          assert b[i] in a;
        }
      }
      SortedUnique(SortedDistinct(StringsOf(a)), SortedDistinct(StringsOf(b)));
    } else {
      assert !Encodable(b) by {
        var i :| 0 <= i < |a| && !(a[i].JStr? || a[i].JNull?);
        assert a[i] in b;
      }
    }
  }

  /** The position of `v` in `classes`: the code the encoder gives it. */
  function IndexOf(v: Json, classes: seq<Json>): (i: nat)
    requires v in classes
    ensures i < |classes| && classes[i] == v
  {
    if classes[0] == v then 0 else 1 + IndexOf(v, classes[1..])
  }

  function Codes(values: seq<Json>, classes: seq<Json>): (r: seq<nat>)
    requires forall v :: v in values ==> v in classes
    ensures |r| == |values|
    ensures forall i :: 0 <= i < |values| ==> r[i] < |classes| && classes[r[i]] == values[i]
  {
    seq(|values|, i requires 0 <= i < |values| => IndexOf(values[i], classes))
  }

  /** `inverse_transform` after `fit_transform` gives back the column, so
      equal values get equal codes and distinct values distinct codes. */
  lemma CodesFaithful(values: seq<Json>)
    requires ClassesOf(values).Success?
    ensures var classes := ClassesOf(values).value;
      var codes := Codes(values, classes);
      forall i, j :: 0 <= i < |values| && 0 <= j < |values| ==>
        (codes[i] == codes[j] <==> values[i] == values[j])
  {
    var classes := ClassesOf(values).value;
    ClassesNoDup(values);
  }

  /** Codes follow the sorted order of the strings they stand for. */
  lemma CodesFollowOrder(values: seq<Json>, x: string, y: string)
    requires ClassesOf(values).Success?
    requires JStr(x) in values && JStr(y) in values && LexLess(x, y)
    ensures var classes := ClassesOf(values).value;
      IndexOf(JStr(x), classes) < IndexOf(JStr(y), classes)
  {
    OrderedIndices(ClassesOf(values).value, x, y);
  }

  lemma OrderedIndices(classes: seq<Json>, x: string, y: string)
    requires ClassOrder(classes) && JStr(x) in classes && JStr(y) in classes && LexLess(x, y)
    ensures IndexOf(JStr(x), classes) < IndexOf(JStr(y), classes)
  {
    var i, j := IndexOf(JStr(x), classes), IndexOf(JStr(y), classes);
    if j <= i {
      LexLessIrreflexive(x);
      if j < i {
        LexLessAsymmetric(x, y);
      }
    }
  }

  /** The encoder object: one fit replaces what the previous fit learned. */
  class LabelEncoder {
    var classes: seq<Json>

    constructor ()
      ensures classes == []
    {
      classes := [];
    }

    /** `fit_transform`: learn the classes of `values` and return their
        codes; on TypeError the encoder keeps what it had. */
    method FitTransform(values: seq<Json>) returns (r: Result<seq<nat>, PyError>)
      modifies this
      ensures r.Success? <==> ClassesOf(values).Success?
      ensures r.Failure? ==> r.error == TypeError && classes == old(classes)
      ensures r.Success? ==> classes == ClassesOf(values).value && r.value == Codes(values, classes)
    {
      var fitted := ClassesOf(values);
      if fitted.Failure? {
        return Failure(fitted.error);
      }
      classes := fitted.value;
      r := Success(Codes(values, classes));
    }
  }
}
