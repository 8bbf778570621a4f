/** Steps applied along a sequence: a loop appending each element's
    outputs to a list, and a map whose step may fail. */
module Seqs {
  import opened Outcomes

  /** `out = []; for x in xs: out += f(x)`. */
  function ConcatMap<T, U>(f: T -> seq<U>, xs: seq<T>): seq<U>
    decreases |xs|
  {
    if |xs| == 0 then []
    else ConcatMap(f, xs[..|xs| - 1]) + f(xs[|xs| - 1])
  }

  /** The elements are handled independently: the outputs for two runs of
      inputs are the outputs of each, in order. */
  lemma {:induction false} ConcatMapAppend<T, U>(f: T -> seq<U>, a: seq<T>, b: seq<T>)
    ensures ConcatMap(f, a + b) == ConcatMap(f, a) + ConcatMap(f, b)
    decreases |b|
  {
    if |b| == 0 {
      assert a + b == a;
    } else {
      var b' := b[..|b| - 1];
      assert (a + b)[..|a + b| - 1] == a + b';
      assert (a + b)[|a + b| - 1] == b[|b| - 1];
      ConcatMapAppend(f, a, b');
    }
  }

  /** Every output comes from one of the inputs. */
  lemma {:induction false} ConcatMapMember<T, U>(f: T -> seq<U>, xs: seq<T>)
    ensures forall y :: y in ConcatMap(f, xs) ==> exists i :: 0 <= i < |xs| && y in f(xs[i])
    decreases |xs|
  {
    if |xs| > 0 {
      ConcatMapMember(f, xs[..|xs| - 1]);
    }
  }

  /** Inputs that each produce at most one output produce at most one
      output apiece together. */
  lemma {:induction false} ConcatMapAtMostOne<T, U>(f: T -> seq<U>, xs: seq<T>)
    requires forall i :: 0 <= i < |xs| ==> |f(xs[i])| <= 1
    ensures |ConcatMap(f, xs)| <= |xs|
    decreases |xs|
  {
    if |xs| > 0 {
      ConcatMapAtMostOne(f, xs[..|xs| - 1]);
    }
  }

  /** Inputs that all produce nothing produce nothing together. */
  lemma {:induction false} ConcatMapNone<T, U>(f: T -> seq<U>, xs: seq<T>)
    requires forall i :: 0 <= i < |xs| ==> f(xs[i]) == []
    ensures ConcatMap(f, xs) == []
    decreases |xs|
  {
    if |xs| > 0 {
      ConcatMapNone(f, xs[..|xs| - 1]);
    }
  }

  /** `list(map(f, xs))` for a step that may fail: every result, in
      order, or else the first element the step rejects. */
  function MapAll<T, U>(f: T -> Option<U>, xs: seq<T>): (r: Result<seq<U>, T>)
    ensures r.Ok? ==> |r.value| == |xs|
    ensures r.Ok? ==> forall i :: 0 <= i < |xs| ==> f(xs[i]) == Some(r.value[i])
    ensures r.Err? ==> exists i :: 0 <= i < |xs| && r.error == xs[i] && f(xs[i]).None? && AllSome(f, xs[..i])
    decreases |xs|
  {
    if |xs| == 0 then Ok([])
    else match f(xs[0])
      case None =>
        assert xs[..0] == [];
        Err(xs[0])
      case Some(v) =>
        match MapAll(f, xs[1..])
        case Err(e) =>
          ghost var j :| 0 <= j < |xs[1..]| && e == xs[1..][j] && f(xs[1..][j]).None? && AllSome(f, xs[1..][..j]);
          assert xs[..j + 1] == [xs[0]] + xs[1..][..j];
          Err(e)
        case Ok(vs) =>
          var r := [v] + vs;
          assert forall i :: 1 <= i < |xs| ==> xs[i] == xs[1..][i - 1] && r[i] == vs[i - 1];
          Ok(r)
  }

  /** The step accepts every element. */
  ghost predicate AllSome<T, U>(f: T -> Option<U>, xs: seq<T>)
  {
    forall i :: 0 <= i < |xs| ==> f(xs[i]).Some?
  }
}
