/** Sequence operations the pages and the application shell share: order-
    preserving filtering, summation, lookup by id, the two upsert flavours,
    delete-by-id and the add-or-remove toggle used by every selection. */
module Collections {
  import opened Types

  /** JavaScript `xs.filter(p)`: keeps exactly the elements satisfying `p`,
      each as often as it occurs, in their original order. */
  function Filter<T(!new)>(xs: seq<T>, p: T -> bool): (r: seq<T>)
    ensures |r| <= |xs|
    ensures forall x :: x in r <==> x in xs && p(x)
    ensures forall x :: multiset(r)[x] == if p(x) then multiset(xs)[x] else 0
    ensures |r| == |xs| <==> forall x :: x in xs ==> p(x)
  {
    if |xs| == 0 then []
    else
      assert xs == [xs[0]] + xs[1..];
      if p(xs[0]) then [xs[0]] + Filter(xs[1..], p) else Filter(xs[1..], p)
  }

  /** Filtering distributes over concatenation, so survivors keep their
      relative order. */
  lemma {:induction false} FilterConcat<T(!new)>(a: seq<T>, b: seq<T>, p: T -> bool)
    ensures Filter(a + b, p) == Filter(a, p) + Filter(b, p)
  {
    if |a| > 0 {
      assert (a + b)[1..] == a[1..] + b;
      FilterConcat(a[1..], b, p);
    } else {
      assert a + b == b;
    }
  }

  /** A filter that rejects nothing returns its input. */
  lemma {:induction false} FilterKeepsAll<T(!new)>(xs: seq<T>, p: T -> bool)
    requires forall x :: x in xs ==> p(x)
    ensures Filter(xs, p) == xs
  {
    if |xs| > 0 {
      FilterKeepsAll(xs[1..], p);
    }
  }

  /** Filters whose predicates agree on the elements give the same result. */
  lemma {:induction false} FilterAgrees<T(!new)>(xs: seq<T>, p: T -> bool, q: T -> bool)
    requires forall x :: x in xs ==> p(x) == q(x)
    ensures Filter(xs, p) == Filter(xs, q)
  {
    if |xs| > 0 {
      assert forall x :: x in xs[1..] ==> x in xs;
      FilterAgrees(xs[1..], p, q);
    }
  }

  /** How many elements of `xs` satisfy `p`, counted one by one. */
  function CountWhere<T>(xs: seq<T>, p: T -> bool): nat
  {
    if |xs| == 0 then 0 else (if p(xs[0]) then 1 else 0) + CountWhere(xs[1..], p)
  }

  /** The length of a filtered list is the number of elements the filter
      accepts. */
  lemma {:induction false} FilterLength<T(!new)>(xs: seq<T>, p: T -> bool)
    ensures |Filter(xs, p)| == CountWhere(xs, p)
  {
    if |xs| > 0 {
      FilterLength(xs[1..], p);
    }
  }

  /** The sum of `f` over `xs` (a `reduce` with initial value 0). */
  function SumOf<T>(xs: seq<T>, f: T -> int): int
  {
    if |xs| == 0 then 0 else f(xs[0]) + SumOf(xs[1..], f)
  }

  lemma {:induction false} SumOfConcat<T>(a: seq<T>, b: seq<T>, f: T -> int)
    ensures SumOf(a + b, f) == SumOf(a, f) + SumOf(b, f)
  {
    if |a| > 0 {
      assert (a + b)[1..] == a[1..] + b;
      SumOfConcat(a[1..], b, f);
    } else {
      assert a + b == b;
    }
  }

  function Passengers(l: OperationLog): int
  {
    l.passengerCount
  }

  /** Total passengers over a list of logs. */
  function SumPassengers(logs: seq<OperationLog>): int
  {
    SumOf(logs, Passengers)
  }

  lemma SumPassengersConcat(a: seq<OperationLog>, b: seq<OperationLog>)
    ensures SumPassengers(a + b) == SumPassengers(a) + SumPassengers(b)
  {
    SumOfConcat(a, b, Passengers);
  }

  lemma SumPassengersCons(l: OperationLog, rest: seq<OperationLog>)
    ensures SumPassengers([l] + rest) == l.passengerCount + SumPassengers(rest)
  {
    assert ([l] + rest)[1..] == rest;
  }

  /** The passengers of the logs satisfying `p`, counted without building
      the filtered list. */
  function SumPassengersWhere(logs: seq<OperationLog>, p: OperationLog -> bool): int
  {
    if |logs| == 0 then 0
    else (if p(logs[0]) then logs[0].passengerCount else 0) + SumPassengersWhere(logs[1..], p)
  }

  /** Summing a filtered list is the same as summing with the filter's
      predicate as a guard. */
  lemma {:induction false} SumPassengersOfFilter(logs: seq<OperationLog>, p: OperationLog -> bool)
    ensures SumPassengers(Filter(logs, p)) == SumPassengersWhere(logs, p)
  {
    if |logs| > 0 {
      SumPassengersOfFilter(logs[1..], p);
      if p(logs[0]) {
        SumPassengersCons(logs[0], Filter(logs[1..], p));
      }
    }
  }

  /** Whether some element carries the given id. */
  predicate HasId<T>(xs: seq<T>, idOf: T -> string, id: string)
  {
    exists j :: 0 <= j < |xs| && idOf(xs[j]) == id
  }

  /** JavaScript `xs.findIndex(x => x.id === id)`, with `None` for -1. */
  function IndexOfId<T>(xs: seq<T>, idOf: T -> string, id: string): (r: Option<nat>)
    ensures r.Some? ==> r.value < |xs| && idOf(xs[r.value]) == id
    ensures r.Some? ==> forall j :: 0 <= j < r.value ==> idOf(xs[j]) != id
    ensures r.None? <==> !HasId(xs, idOf, id)
  {
    if |xs| == 0 then None
    else if idOf(xs[0]) == id then Some(0)
    else match IndexOfId(xs[1..], idOf, id)
      case None =>
        assert forall j :: 0 < j < |xs| ==> xs[j] == xs[1..][j - 1];
        None
      case Some(k) => Some(k + 1)
  }

  /** JavaScript `xs.find(x => x.id === id)`: the first element with the id. */
  function FindById<T>(xs: seq<T>, idOf: T -> string, id: string): (r: Option<T>)
    ensures r.Some? ==> r.value in xs && idOf(r.value) == id
    ensures r.Some? ==> exists i :: 0 <= i < |xs| && xs[i] == r.value && idOf(xs[i]) == id &&
                                    forall j :: 0 <= j < i ==> idOf(xs[j]) != id
    ensures r.None? <==> !HasId(xs, idOf, id)
  {
    match IndexOfId(xs, idOf, id)
    case None => None
    case Some(i) => Some(xs[i])
  }

  /** An index is the first one carrying `id` exactly when it carries it and
      no earlier one does. */
  lemma IndexOfIdIsFirst<T>(xs: seq<T>, idOf: T -> string, id: string, i: nat)
    requires i < |xs| && idOf(xs[i]) == id
    requires forall j :: 0 <= j < i ==> idOf(xs[j]) != id
    ensures IndexOfId(xs, idOf, id) == Some(i)
  {
  }

  /** The log upsert: replaces the first element with the same id in place,
      or puts the new element in front. */
  function UpsertFront<T>(xs: seq<T>, idOf: T -> string, x: T): (r: seq<T>)
    ensures HasId(xs, idOf, idOf(x)) ==>
      var i := IndexOfId(xs, idOf, idOf(x)).value;
      |r| == |xs| && r[i] == x && forall j :: 0 <= j < |xs| && j != i ==> r[j] == xs[j]
    ensures !HasId(xs, idOf, idOf(x)) ==> |r| == |xs| + 1 && r[0] == x && r[1..] == xs
  {
    match IndexOfId(xs, idOf, idOf(x))
    case Some(i) => xs[i := x]
    case None => [x] + xs
  }

  /** The user and ship upsert: replaces in place, or appends at the end. */
  function UpsertBack<T>(xs: seq<T>, idOf: T -> string, x: T): (r: seq<T>)
    ensures HasId(xs, idOf, idOf(x)) ==>
      var i := IndexOfId(xs, idOf, idOf(x)).value;
      |r| == |xs| && r[i] == x && forall j :: 0 <= j < |xs| && j != i ==> r[j] == xs[j]
    ensures !HasId(xs, idOf, idOf(x)) ==> |r| == |xs| + 1 && r[|xs|] == x && r[..|xs|] == xs
  {
    match IndexOfId(xs, idOf, idOf(x))
    case Some(i) => xs[i := x]
    case None => xs + [x]
  }

  /** After an upsert, looking the id up yields the saved element. */
  lemma UpsertFrontThenFind<T>(xs: seq<T>, idOf: T -> string, x: T)
    ensures FindById(UpsertFront(xs, idOf, x), idOf, idOf(x)) == Some(x)
  {
    var r := UpsertFront(xs, idOf, x);
    if HasId(xs, idOf, idOf(x)) {
      IndexOfIdIsFirst(r, idOf, idOf(x), IndexOfId(xs, idOf, idOf(x)).value);
    } else {
      IndexOfIdIsFirst(r, idOf, idOf(x), 0);
    }
  }

  lemma UpsertBackThenFind<T>(xs: seq<T>, idOf: T -> string, x: T)
    ensures FindById(UpsertBack(xs, idOf, x), idOf, idOf(x)) == Some(x)
  {
    var r := UpsertBack(xs, idOf, x);
    if HasId(xs, idOf, idOf(x)) {
      IndexOfIdIsFirst(r, idOf, idOf(x), IndexOfId(xs, idOf, idOf(x)).value);
    } else {
      IndexOfIdIsFirst(r, idOf, idOf(x), |xs|);
    }
  }

  /** Saving the same element twice is the same as saving it once: the
      second save replaces, it does not duplicate. */
  lemma UpsertFrontIdempotent<T>(xs: seq<T>, idOf: T -> string, x: T)
    ensures UpsertFront(UpsertFront(xs, idOf, x), idOf, x) == UpsertFront(xs, idOf, x)
  {
    var r := UpsertFront(xs, idOf, x);
    if HasId(xs, idOf, idOf(x)) {
      var i := IndexOfId(xs, idOf, idOf(x)).value;
      IndexOfIdIsFirst(r, idOf, idOf(x), i);
      assert r[i := x] == r;
    } else {
      IndexOfIdIsFirst(r, idOf, idOf(x), 0);
      assert r[0 := x] == r;
    }
  }

  lemma UpsertBackIdempotent<T>(xs: seq<T>, idOf: T -> string, x: T)
    ensures UpsertBack(UpsertBack(xs, idOf, x), idOf, x) == UpsertBack(xs, idOf, x)
  {
    var r := UpsertBack(xs, idOf, x);
    if HasId(xs, idOf, idOf(x)) {
      var i := IndexOfId(xs, idOf, idOf(x)).value;
      IndexOfIdIsFirst(r, idOf, idOf(x), i);
      assert r[i := x] == r;
    } else {
      IndexOfIdIsFirst(r, idOf, idOf(x), |xs|);
      assert r[|xs| := x] == r;
    }
  }

  /** JavaScript `xs.filter(x => x.id !== id)`: delete by id. */
  function RemoveId<T(!new)>(xs: seq<T>, idOf: T -> string, id: string): (r: seq<T>)
    ensures forall x :: x in r <==> x in xs && idOf(x) != id
    ensures !HasId(r, idOf, id)
    ensures HasId(xs, idOf, id) <==> |r| < |xs|
  {
    var r := Filter(xs, x => idOf(x) != id);
    if HasId(xs, idOf, id) then
      var j :| 0 <= j < |xs| && idOf(xs[j]) == id;
      assert xs[j] in xs;
      r
    else
      FilterKeepsAll(xs, x => idOf(x) != id);
      r
  }

  /** Deleting the same id twice changes nothing the second time. */
  lemma RemoveIdIdempotent<T(!new)>(xs: seq<T>, idOf: T -> string, id: string)
    ensures RemoveId(RemoveId(xs, idOf, id), idOf, id) == RemoveId(xs, idOf, id)
  {
    var r := RemoveId(xs, idOf, id);
    FilterKeepsAll(r, x => idOf(x) != id);
  }

  /** Deleting an id works piecewise, so the remaining elements keep their
      relative order. */
  lemma RemoveIdConcat<T(!new)>(a: seq<T>, b: seq<T>, idOf: T -> string, id: string)
    ensures RemoveId(a + b, idOf, id) == RemoveId(a, idOf, id) + RemoveId(b, idOf, id)
  {
    FilterConcat(a, b, x => idOf(x) != id);
  }

  /** The selection toggle: drops every occurrence of a present id, appends
      an absent one at the end. */
  function Toggle(xs: seq<string>, id: string): (r: seq<string>)
    ensures id in xs ==> id !in r && |r| < |xs|
    ensures id !in xs ==> r == xs + [id]
    ensures forall y :: y != id ==> (y in r <==> y in xs)
  {
    if id in xs then
      Filter(xs, x => x != id)
    else xs + [id]
  }

  /** Toggling twice restores membership of every id. */
  lemma ToggleTwiceMembership(xs: seq<string>, id: string)
    ensures forall y :: y in Toggle(Toggle(xs, id), id) <==> y in xs
  {
  }

  /** Toggling an unselected id twice restores the selection exactly. */
  lemma ToggleTwiceRestores(xs: seq<string>, id: string)
    requires id !in xs
    ensures Toggle(Toggle(xs, id), id) == xs
  {
    FilterConcat(xs, [id], x => x != id);
    FilterKeepsAll(xs, x => x != id);
    assert Filter([id], x => x != id) == [];
  }
}
