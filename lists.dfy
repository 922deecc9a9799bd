/** The two list-building shapes of the fetch code, stated once for every entity:
    a `foreach` that adds one record per input item (MapAll), and a `foreach` that
    calls `AddRange` with a list per input item (Gather). A fault in any item aborts
    the whole list, as an exception escaping the loop does in BesApi.cs.
    `ctx` carries what the loop body reads besides the item (an id, the store's rows,
    the server). */
module Lists {
  import opened Wrappers

  /** Two lists, concatenated, unless either is a fault (the first one's fault wins). */
  function Then<B>(a: Result<seq<B>>, b: Result<seq<B>>): Result<seq<B>> {
    match a
    case Err(e) => Err(e)
    case Ok(x) => (match b case Err(e) => Err(e) case Ok(y) => Ok(x + y))
  }

  /** One result per item, in input order; the first failing item's fault otherwise. */
  function MapAll<C, A, B>(ctx: C, xs: seq<A>, f: (C, A) -> Result<B>): (r: Result<seq<B>>)
    ensures r.Ok? <==> forall i :: 0 <= i < |xs| ==> f(ctx, xs[i]).Ok?
    ensures r.Ok? ==> |r.value| == |xs|
    ensures r.Ok? ==> forall i :: 0 <= i < |xs| ==> f(ctx, xs[i]) == Ok(r.value[i])
  {
    if xs == [] then Ok([])
    else
      var head :- f(ctx, xs[0]);
      var tail :- MapAll(ctx, xs[1..], f);
      Ok([head] + tail)
  }

  /** The fault MapAll reports is that of the first item that fails. */
  lemma {:induction false} MapAllFirstFault<C, A, B>(ctx: C, xs: seq<A>, f: (C, A) -> Result<B>, k: nat)
    requires k < |xs| && f(ctx, xs[k]).Err?
    requires forall i :: 0 <= i < k ==> f(ctx, xs[i]).Ok?
    ensures MapAll(ctx, xs, f) == Err(f(ctx, xs[k]).error)
  {
    if k > 0 {
      MapAllFirstFault(ctx, xs[1..], f, k - 1);
    }
  }

  /** Mapping a concatenation maps each part and concatenates, failing at the first fault. */
  lemma {:induction false} MapAllConcat<C, A, B>(ctx: C, xs: seq<A>, ys: seq<A>, f: (C, A) -> Result<B>)
    ensures MapAll(ctx, xs + ys, f) == Then(MapAll(ctx, xs, f), MapAll(ctx, ys, f))
  {
    if xs == [] {
      assert xs + ys == ys;
      match MapAll<C, A, B>(ctx, ys, f)
      case Err(_) =>
      case Ok(b) => assert [] + b == b;
    } else {
      assert (xs + ys)[0] == xs[0];
      assert (xs + ys)[1..] == xs[1..] + ys;
      MapAllConcat(ctx, xs[1..], ys, f);
      match f(ctx, xs[0])
      case Err(_) =>
      case Ok(h) =>
        match MapAll<C, A, B>(ctx, xs[1..], f)
        case Err(_) =>
        case Ok(a) =>
          match MapAll<C, A, B>(ctx, ys, f)
          case Err(_) =>
          case Ok(b) =>
            assert [h] + a + b == [h] + (a + b);
    }
  }

  /** A MapAll of one item is that item's result, as a one-element list. */
  lemma MapAllSingle<C, A, B>(ctx: C, x: A, f: (C, A) -> Result<B>)
    ensures MapAll(ctx, [x], f) == (match f(ctx, x) case Err(e) => Err(e) case Ok(b) => Ok([b]))
  {
    assert [x][1..] == [];
    assert MapAll<C, A, B>(ctx, [], f) == Ok([]);
    match f(ctx, x)
    case Err(_) =>
    case Ok(b) => assert [b] + [] == [b];
  }

  /** The loop step of every MapAll-shaped `foreach`: one more item processed. */
  lemma MapAllStep<C, A, B>(ctx: C, xs: seq<A>, f: (C, A) -> Result<B>, i: nat, acc: seq<B>)
    requires i < |xs|
    requires MapAll(ctx, xs[..i], f) == Ok(acc)
    ensures f(ctx, xs[i]).Ok? ==> MapAll(ctx, xs[..i + 1], f) == Ok(acc + [f(ctx, xs[i]).value])
    ensures f(ctx, xs[i]).Err? ==> MapAll(ctx, xs[..i + 1], f) == Err(f(ctx, xs[i]).error)
  {
    assert xs[..i + 1] == xs[..i] + [xs[i]];
    MapAllConcat(ctx, xs[..i], [xs[i]], f);
    MapAllSingle(ctx, xs[i], f);
  }

  /** A fault in a prefix is the fault of the whole list. */
  lemma MapAllAbort<C, A, B>(ctx: C, xs: seq<A>, f: (C, A) -> Result<B>, i: nat)
    requires i <= |xs|
    requires MapAll(ctx, xs[..i], f).Err?
    ensures MapAll(ctx, xs, f) == MapAll(ctx, xs[..i], f)
  {
    assert xs == xs[..i] + xs[i..];
    MapAllConcat(ctx, xs[..i], xs[i..], f);
  }

  /** When every item gives its expected result, MapAll gives exactly those results. */
  lemma {:induction false} MapAllExact<C, A, B>(ctx: C, xs: seq<A>, f: (C, A) -> Result<B>, ys: seq<B>)
    requires |xs| == |ys|
    requires forall i :: 0 <= i < |xs| ==> f(ctx, xs[i]) == Ok(ys[i])
    ensures MapAll(ctx, xs, f) == Ok(ys)
  {
    if xs != [] {
      MapAllExact(ctx, xs[1..], f, ys[1..]);
      assert [ys[0]] + ys[1..] == ys;
    }
  }

  /** The loop step of a `foreach` that updates the listed items in place: the first `i`
      items are already replaced by their results, the rest are as listed. */
  lemma MapAllInPlace<C, A>(ctx: C, xs: seq<A>, f: (C, A) -> Result<A>, i: nat, ys: seq<A>)
    requires i < |xs| == |ys|
    requires MapAll(ctx, xs[..i], f) == Ok(ys[..i]) && ys[i..] == xs[i..]
    requires f(ctx, xs[i]).Ok?
    ensures MapAll(ctx, xs[..i + 1], f) == Ok(ys[i := f(ctx, xs[i]).value][..i + 1])
    ensures ys[i := f(ctx, xs[i]).value][i + 1..] == xs[i + 1..]
  {
    MapAllStep(ctx, xs, f, i, ys[..i]);
    var zs := ys[i := f(ctx, xs[i]).value];
    assert zs[..i + 1] == ys[..i] + [f(ctx, xs[i]).value];
    assert ys[i + 1..] == ys[i..][1..];
  }

  /** Each item's list, concatenated in input order; the first failing item's fault otherwise. */
  function Gather<C, A, B>(ctx: C, xs: seq<A>, f: (C, A) -> Result<seq<B>>): (r: Result<seq<B>>)
    ensures r.Ok? <==> forall i :: 0 <= i < |xs| ==> f(ctx, xs[i]).Ok?
    ensures |xs| == 1 ==> r == f(ctx, xs[0])
  {
    if xs == [] then Ok([])
    else
      var head :- f(ctx, xs[0]);
      var tail :- Gather(ctx, xs[1..], f);
      assert |xs| == 1 ==> head + tail == head;
      Ok(head + tail)
  }

  /** Gathering a concatenation gathers each part and concatenates: the order of the
      input is the order of the output. */
  lemma {:induction false} GatherConcat<C, A, B>(ctx: C, xs: seq<A>, ys: seq<A>, f: (C, A) -> Result<seq<B>>)
    ensures Gather(ctx, xs + ys, f) == Then(Gather(ctx, xs, f), Gather(ctx, ys, f))
  {
    if xs == [] {
      assert xs + ys == ys;
      match Gather<C, A, B>(ctx, ys, f)
      case Err(_) =>
      case Ok(b) => assert [] + b == b;
    } else {
      assert (xs + ys)[0] == xs[0];
      assert (xs + ys)[1..] == xs[1..] + ys;
      GatherConcat(ctx, xs[1..], ys, f);
      match f(ctx, xs[0])
      case Err(_) =>
      case Ok(h) =>
        match Gather<C, A, B>(ctx, xs[1..], f)
        case Err(_) =>
        case Ok(a) =>
          match Gather<C, A, B>(ctx, ys, f)
          case Err(_) =>
          case Ok(b) =>
            assert h + a + b == h + (a + b);
    }
  }

  /** The loop step of every Gather-shaped `foreach`: `AddRange` one more item's list. */
  lemma GatherStep<C, A, B>(ctx: C, xs: seq<A>, f: (C, A) -> Result<seq<B>>, i: nat, acc: seq<B>)
    requires i < |xs|
    requires Gather(ctx, xs[..i], f) == Ok(acc)
    ensures Gather(ctx, xs[..i + 1], f) == Then(Ok(acc), f(ctx, xs[i]))
  {
    assert xs[..i + 1] == xs[..i] + [xs[i]];
    GatherConcat(ctx, xs[..i], [xs[i]], f);
  }

  /** A fault in a prefix is the fault of the whole list. */
  lemma GatherAbort<C, A, B>(ctx: C, xs: seq<A>, f: (C, A) -> Result<seq<B>>, i: nat)
    requires i <= |xs|
    requires Gather(ctx, xs[..i], f).Err?
    ensures Gather(ctx, xs, f) == Gather(ctx, xs[..i], f)
  {
    assert xs == xs[..i] + xs[i..];
    GatherConcat(ctx, xs[..i], xs[i..], f);
  }

  /** The `foreach ... Add` loop: one result per item, appended in input order; the first
      failing item's fault leaves the loop. */
  method Collect<C, A, B>(ctx: C, xs: seq<A>, f: (C, A) -> Result<B>) returns (r: Result<seq<B>>)
    ensures r == MapAll(ctx, xs, f)
  {
    var acc: seq<B> := [];
    var i := 0;
    while i < |xs|
      invariant 0 <= i <= |xs|
      invariant MapAll(ctx, xs[..i], f) == Ok(acc)
    {
      MapAllStep(ctx, xs, f, i, acc);
      var item := f(ctx, xs[i]);
      if item.Err? {
        MapAllAbort(ctx, xs, f, i + 1);
        return Err(item.error);
      }
      acc := acc + [item.value];
      i := i + 1;
    }
    assert xs[..i] == xs;
    return Ok(acc);
  }
}
