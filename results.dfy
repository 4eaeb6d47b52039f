/** Running a sequence of steps that may raise, as a Python loop does: the
    first exception ends the loop, otherwise every step's output is kept, in
    order. `Collect` keeps one value per step, `Concat` a list per step. */
module Results {
  import opened Wrappers
  import opened Seqs

  /** The values of all steps, or the error of the first step that failed. */
  function Collect<T, E>(rs: seq<Result<T, E>>): (r: Result<seq<T>, E>)
    ensures r.Success? <==> forall k :: 0 <= k < |rs| ==> rs[k].Success?
    ensures r.Success? ==> |r.value| == |rs| && forall k :: 0 <= k < |rs| ==> rs[k] == Success(r.value[k])
    ensures r.Failure? ==>
      exists k :: (0 <= k < |rs| && rs[k] == Failure(r.error) && forall j :: 0 <= j < k ==> rs[j].Success?)
  {
    if rs == [] then Success([])
    else
      var p := rs[..|rs| - 1];
      assert forall k :: 0 <= k < |p| ==> p[k] == rs[k];
      match Collect(p)
      case Failure(e) => Failure(e)
      case Success(vs) =>
        match rs[|rs| - 1]
        case Failure(e) => Failure(e)
        case Success(v) => Success(vs + [v])
  }

  /** The lengths of the lists the steps produced (0 for a failed step). */
  function Lengths<T, E>(rs: seq<Result<seq<T>, E>>): (r: seq<nat>)
    ensures |r| == |rs|
    ensures forall k :: 0 <= k < |rs| && rs[k].Success? ==> r[k] == |rs[k].value|
  {
    seq(|rs|, k requires 0 <= k < |rs| => if rs[k].Success? then |rs[k].value| else 0)
  }

  /** The lists of all steps joined in order, or the error of the first step that failed. */
  function Concat<T, E>(rs: seq<Result<seq<T>, E>>): (r: Result<seq<T>, E>)
    ensures r.Success? <==> forall k :: 0 <= k < |rs| ==> rs[k].Success?
    ensures r.Success? ==> |r.value| == Sum(Lengths(rs))
    ensures r.Failure? ==>
      exists k :: (0 <= k < |rs| && rs[k] == Failure(r.error) && forall j :: 0 <= j < k ==> rs[j].Success?)
  {
    if rs == [] then Success([])
    else
      var p := rs[..|rs| - 1];
      assert forall k :: 0 <= k < |p| ==> p[k] == rs[k];
      assert Lengths(rs)[..|rs| - 1] == Lengths(p);
      match Concat(p)
      case Failure(e) => Failure(e)
      case Success(vs) =>
        match rs[|rs| - 1]
        case Failure(e) => Failure(e)
        case Success(v) => Success(vs + v)
  }

  lemma CollectStep<T, E>(rs: seq<Result<T, E>>, i: nat)
    requires i < |rs| && Collect(rs[..i]).Success? && rs[i].Success?
    ensures Collect(rs[..i + 1]) == Success(Collect(rs[..i]).value + [rs[i].value])
  {
    assert rs[..i + 1][..i] == rs[..i];
  }

  lemma ConcatStep<T, E>(rs: seq<Result<seq<T>, E>>, i: nat)
    requires i < |rs| && Concat(rs[..i]).Success? && rs[i].Success?
    ensures Concat(rs[..i + 1]) == Success(Concat(rs[..i]).value + rs[i].value)
  {
    assert rs[..i + 1][..i] == rs[..i];
  }

  /** A step that fails after steps that all succeeded ends the whole run with its error. */
  lemma CollectFailsAt<T, E>(rs: seq<Result<T, E>>, i: nat)
    requires i < |rs| && Collect(rs[..i]).Success? && rs[i].Failure?
    ensures Collect(rs) == Failure(rs[i].error)
  {
    assert forall j :: 0 <= j < i ==> rs[..i][j] == rs[j];
    var k :| 0 <= k < |rs| && rs[k] == Failure(Collect(rs).error) && forall j :: 0 <= j < k ==> rs[j].Success?;
    assert !(k < i) && !(i < k);
  }

  lemma ConcatFailsAt<T, E>(rs: seq<Result<seq<T>, E>>, i: nat)
    requires i < |rs| && Concat(rs[..i]).Success? && rs[i].Failure?
    ensures Concat(rs) == Failure(rs[i].error)
  {
    assert forall j :: 0 <= j < i ==> rs[..i][j] == rs[j];
    var k :| 0 <= k < |rs| && rs[k] == Failure(Concat(rs).error) && forall j :: 0 <= j < k ==> rs[j].Success?;
    assert !(k < i) && !(i < k);
  }

  /** Every element of a joined result comes from one of the steps. */
  lemma {:induction false} ConcatFrom<T, E>(rs: seq<Result<seq<T>, E>>)
    requires Concat(rs).Success?
    ensures forall i :: 0 <= i < |Concat(rs).value| ==>
      exists k :: 0 <= k < |rs| && Concat(rs).value[i] in rs[k].value
    decreases |rs|
  {
    if rs != [] {
      var p := rs[..|rs| - 1];
      ConcatFrom(p);
      var vs := Concat(p).value;
      var all := Concat(rs).value;
      forall i | 0 <= i < |all| ensures exists k :: 0 <= k < |rs| && all[i] in rs[k].value {
        if i < |vs| {
          var k :| 0 <= k < |p| && vs[i] in p[k].value;
          assert p[k] == rs[k];
        } else {
          assert all[i] == rs[|rs| - 1].value[i - |vs|];
        }
      }
    }
  }

  /** Two runs whose steps succeed with pairwise related lists of equal
      lengths join into pairwise related lists of equal length. */
  lemma {:induction false} ConcatZip<A, B, E>(xs: seq<Result<seq<A>, E>>, ys: seq<Result<seq<B>, E>>, rel: (A, B) -> bool)
    requires |xs| == |ys| && Concat(xs).Success? && Concat(ys).Success?
    requires forall k :: 0 <= k < |xs| ==> |xs[k].value| == |ys[k].value|
    requires forall k, j :: 0 <= k < |xs| && 0 <= j < |xs[k].value| ==> rel(xs[k].value[j], ys[k].value[j])
    ensures |Concat(xs).value| == |Concat(ys).value|
    ensures forall i :: 0 <= i < |Concat(xs).value| ==> rel(Concat(xs).value[i], Concat(ys).value[i])
    decreases |xs|
  {
    if xs != [] {
      var n := |xs| - 1;
      var px, py := xs[..n], ys[..n];
      assert forall k :: 0 <= k < n ==> px[k] == xs[k] && py[k] == ys[k];
      ConcatZip(px, py, rel);
      var a, b := Concat(px).value, Concat(py).value;
      assert Concat(xs).value == a + xs[n].value;
      assert Concat(ys).value == b + ys[n].value;
      forall i | 0 <= i < |Concat(xs).value| ensures rel(Concat(xs).value[i], Concat(ys).value[i]) {
        if i >= |a| {
          assert Concat(xs).value[i] == xs[n].value[i - |a|];
          assert Concat(ys).value[i] == ys[n].value[i - |a|];
        }
      }
    }
  }
}
