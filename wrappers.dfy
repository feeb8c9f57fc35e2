/** Option, Result and the panics of the Rust code, as values. */
module Wrappers {

  datatype Option<+T> = None | Some(value: T)

  datatype Result<+T, +E> = Ok(value: T) | Err(error: E)

  /** Why a Rust call panicked: `unimplemented!(msg)` or `unwrap()` on a `None`. */
  datatype PanicReason = Unimplemented(message: string) | UnwrapNone

  /** The outcome of a call that may panic: it returns a value or it aborts the thread. */
  datatype Run<+T> = Returns(value: T) | Panics(reason: PanicReason)

  /** `map`: `f` applied to each element, in order. */
  function MapSeq<A, B>(xs: seq<A>, f: A -> B): (r: seq<B>)
    ensures |r| == |xs|
    ensures forall k :: 0 <= k < |xs| ==> r[k] == f(xs[k])
  {
    seq(|xs|, k requires 0 <= k < |xs| => f(xs[k]))
  }

  lemma MapSeqAppend<A, B>(xs: seq<A>, ys: seq<A>, f: A -> B)
    ensures MapSeq(xs + ys, f) == MapSeq(xs, f) + MapSeq(ys, f)
  {
    assert forall k :: 0 <= k < |xs| ==> (xs + ys)[k] == xs[k];
    assert forall k :: |xs| <= k < |xs| + |ys| ==> (xs + ys)[k] == ys[k - |xs|];
  }

  /**
   * `collect` over an iterator whose items may panic: all the values, in
   * order, when none panics; otherwise the first panic.
   */
  function Collect<T>(rs: seq<Run<T>>): (r: Run<seq<T>>)
  {
    if rs == [] then Returns([])
    else
      match rs[0]
      case Panics(why) => Panics(why)
      case Returns(v) =>
        match Collect(rs[1..])
        case Panics(why) => Panics(why)
        case Returns(vs) => Returns([v] + vs)
  }

  /**
   * Collecting returns exactly when no item panics, and then holds every
   * item's value in order; a panic is that of the first panicking item.
   */
  lemma {:induction false} CollectMeaning<T>(rs: seq<Run<T>>)
    ensures Collect(rs).Returns? <==> forall k :: 0 <= k < |rs| ==> rs[k].Returns?
    ensures Collect(rs).Returns? ==>
      |Collect(rs).value| == |rs| && forall k :: 0 <= k < |rs| ==> rs[k] == Returns(Collect(rs).value[k])
    ensures Collect(rs).Panics? ==>
      exists k :: 0 <= k < |rs| && rs[k] == Panics(Collect(rs).reason) && forall j :: 0 <= j < k ==> rs[j].Returns?
    decreases |rs|
  {
    if rs != [] {
      CollectMeaning(rs[1..]);
      if rs[0].Returns? && Collect(rs[1..]).Panics? {
        var k :| 0 <= k < |rs[1..]| && rs[1..][k] == Panics(Collect(rs[1..]).reason) &&
          forall j :: 0 <= j < k ==> rs[1..][j].Returns?;
        assert rs[k + 1] == Panics(Collect(rs).reason);
      }
    }
  }

  /** Collecting one more item: its value is appended, or its panic is the result. */
  lemma {:induction false} CollectSnoc<T>(rs: seq<Run<T>>, x: Run<T>)
    ensures Collect(rs + [x]) ==
      match Collect(rs)
      case Panics(why) => Panics(why)
      case Returns(vs) =>
        (match x
         case Panics(why) => Panics(why)
         case Returns(v) => Returns(vs + [v]))
    decreases |rs|
  {
    if rs == [] {
      assert rs + [x] == [x] && [x][1..] == [];
      if x.Returns? {
        assert [] + [x.value] == [x.value] + [] == [x.value];
        assert Collect([x][1..]) == Returns([]);
      }
    } else {
      assert (rs + [x])[0] == rs[0] && (rs + [x])[1..] == rs[1..] + [x];
      CollectSnoc(rs[1..], x);
      if rs[0].Returns? && Collect(rs[1..]).Returns? && x.Returns? {
        var v, vs, w := rs[0].value, Collect(rs[1..]).value, x.value;
        assert [v] + (vs + [w]) == ([v] + vs) + [w];
      }
    }
  }

  /** Items after a panic are never looked at. */
  lemma {:induction false} CollectPanicsPrefix<T>(rs: seq<Run<T>>, more: seq<Run<T>>)
    requires Collect(rs).Panics?
    ensures Collect(rs + more) == Collect(rs)
    decreases |rs|
  {
    assert rs != [];
    if rs[0].Returns? {
      assert (rs + more)[1..] == rs[1..] + more;
      CollectPanicsPrefix(rs[1..], more);
    }
  }

  /**
   * Collecting one more item of `xs` mapped by `f`: a value extends what
   * was collected, a panic is the outcome of collecting all of `xs`.
   */
  lemma CollectStep<A, T>(xs: seq<A>, i: nat, f: A -> Run<T>, done: seq<T>)
    requires i < |xs| && Collect(MapSeq(xs[..i], f)) == Returns(done)
    ensures f(xs[i]).Returns? ==> Collect(MapSeq(xs[..i + 1], f)) == Returns(done + [f(xs[i]).value])
    ensures f(xs[i]).Panics? ==> Collect(MapSeq(xs, f)) == Panics(f(xs[i]).reason)
  {
    assert xs[..i + 1] == xs[..i] + [xs[i]];
    MapSeqAppend(xs[..i], [xs[i]], f);
    assert MapSeq([xs[i]], f) == [f(xs[i])];
    CollectSnoc(MapSeq(xs[..i], f), f(xs[i]));
    if f(xs[i]).Panics? {
      assert xs == xs[..i + 1] + xs[i + 1..];
      MapSeqAppend(xs[..i + 1], xs[i + 1..], f);
      CollectPanicsPrefix(MapSeq(xs[..i + 1], f), MapSeq(xs[i + 1..], f));
    }
  }
}
