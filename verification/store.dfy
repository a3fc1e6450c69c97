/** The in-memory `issues_db`: a Python dict keyed by issue id, which keeps
    its keys in insertion order. It is modelled as the sequence of its values
    in that order; the id of each value is its key. */
module IssueStore {

  import opened Wrappers
  import opened Issues

  type Store = seq<Issue>

  /** No two entries share an id: the dict has one value per key. */
  predicate UniqueIds(store: Store)
  {
    forall i, j :: 0 <= i < j < |store| ==> store[i].id != store[j].id
  }

  predicate HasId(store: Store, id: string)
  {
    exists i :: 0 <= i < |store| && store[i].id == id
  }

  /** A store the service can reach: unique ids, and every record passed
      the coordinate validators. */
  predicate Valid(store: Store)
  {
    UniqueIds(store) && forall i :: 0 <= i < |store| ==> ValidIssue(store[i])
  }

  /** Position of the first entry with key `id`. */
  function Find(store: Store, id: string): (r: Option<nat>)
    ensures r.Some? ==> r.value < |store| && store[r.value].id == id
    ensures r.Some? ==> forall j :: 0 <= j < r.value ==> store[j].id != id
    ensures r.None? <==> !HasId(store, id)
  {
    if |store| == 0 then None
    else if store[0].id == id then Some(0)
    else
      match Find(store[1..], id)
      case None =>
        assert forall j :: 1 <= j < |store| ==> store[j] == store[1..][j - 1];
        None
      case Some(k) => Some(k + 1)
  }

  /** The position `Find` reports is the first one holding `id`. */
  lemma {:induction false} FindFirst(store: Store, id: string, i: nat)
    requires i < |store| && store[i].id == id
    requires forall j :: 0 <= j < i ==> store[j].id != id
    ensures Find(store, id) == Some(i)
    decreases i
  {
    if i > 0 {
      FindFirst(store[1..], id, i - 1);
    }
  }

  /** The issue under `id`: the `issue_id not in issues_db` test and the
      `issues_db[issue_id]` subscript together. */
  function Lookup(store: Store, id: string): (r: Option<Issue>)
    ensures r.None? <==> !HasId(store, id)
    ensures r.Some? ==> r.value in store && r.value.id == id
  {
    match Find(store, id)
    case None => None
    case Some(i) => Some(store[i])
  }

  /** In a store with unique ids, the entry found under an id is the one at
      any position holding that id. */
  lemma LookupUnique(store: Store, i: nat)
    requires UniqueIds(store)
    requires i < |store|
    ensures Find(store, store[i].id) == Some(i)
    ensures Lookup(store, store[i].id) == Some(store[i])
  {
  }

  /** `issues_db[issue.id] = issue`: an existing key keeps its position and
      takes the new value; a new key goes to the end. */
  function Put(store: Store, issue: Issue): (r: Store)
    ensures HasId(store, issue.id) ==> |r| == |store|
    ensures !HasId(store, issue.id) ==> |r| == |store| + 1 && r[..|store|] == store && r[|store|] == issue
    ensures forall j :: 0 <= j < |store| && store[j].id != issue.id ==> r[j] == store[j]
    ensures forall j :: 0 <= j < |store| ==> r[j].id == store[j].id
    ensures Lookup(r, issue.id) == Some(issue)
    ensures UniqueIds(store) ==> UniqueIds(r)
  {
    match Find(store, issue.id)
    case Some(i) =>
      var r := store[i := issue];
      FindFirst(r, issue.id, i);
      r
    case None =>
      var r := store + [issue];
      FindFirst(r, issue.id, |store|);
      r
  }

  /** Writing a record with valid coordinates keeps the store valid. */
  lemma PutKeepsValid(store: Store, issue: Issue)
    requires Valid(store)
    requires ValidIssue(issue)
    ensures Valid(Put(store, issue))
  {
    var r := Put(store, issue);
    forall j | 0 <= j < |r|
      ensures ValidIssue(r[j])
    {
      if j < |store| && store[j].id != issue.id {
        assert r[j] == store[j];
      } else {
        LookupUnique(r, j);
      }
    }
  }

  /** The elements of `s` that satisfy `keep`, in their order in `s`: one
      comprehension `[x for x in s if keep(x)]`. */
  function Filter<T(==,!new)>(s: seq<T>, keep: T -> bool): (r: seq<T>)
    ensures |r| <= |s|
    ensures forall x :: x in r <==> x in s && keep(x)
  {
    if |s| == 0 then []
    else if keep(s[0]) then [s[0]] + Filter(s[1..], keep)
    else Filter(s[1..], keep)
  }

  /** A filter keeps every occurrence of a kept element and none of a
      dropped one: it deletes no repeats. */
  lemma {:induction false} FilterKeepsOccurrences<T(!new)>(s: seq<T>, keep: T -> bool)
    ensures forall x :: multiset(Filter(s, keep))[x] == if keep(x) then multiset(s)[x] else 0
    decreases |s|
  {
    if |s| > 0 {
      FilterKeepsOccurrences(s[1..], keep);
      assert s == [s[0]] + s[1..];
    }
  }

  /** `a` can be obtained from `b` by deleting elements: it lists some of
      `b`'s elements in `b`'s order. */
  predicate Subsequence<T(==)>(a: seq<T>, b: seq<T>)
    decreases |b|
  {
    || |a| == 0
    || (&& |b| > 0
        && ((a[0] == b[0] && Subsequence(a[1..], b[1..])) || Subsequence(a, b[1..])))
  }

  /** A filter keeps the order of its input. */
  lemma {:induction false} FilterIsSubsequence<T(!new)>(s: seq<T>, keep: T -> bool)
    ensures Subsequence(Filter(s, keep), s)
    decreases |s|
  {
    if |s| > 0 {
      FilterIsSubsequence(s[1..], keep);
    }
  }

  /** The conjunction of two predicates. */
  function Both<T>(first: T -> bool, second: T -> bool): T -> bool
  {
    x => first(x) && second(x)
  }

  /** Two filters in a row are one filter by the conjunction. */
  lemma {:induction false} FilterTwice<T(!new)>(s: seq<T>, first: T -> bool, second: T -> bool)
    ensures Filter(Filter(s, first), second) == Filter(s, Both(first, second))
    decreases |s|
  {
    if |s| > 0 {
      FilterTwice(s[1..], first, second);
      if first(s[0]) {
        assert Filter(s, first)[1..] == Filter(s[1..], first);
      }
    }
  }

  /** Filtering a longer sequence filters the extra element on its own. */
  lemma {:induction false} FilterSnoc<T(!new)>(s: seq<T>, x: T, keep: T -> bool)
    ensures Filter(s + [x], keep) == Filter(s, keep) + (if keep(x) then [x] else [])
    decreases |s|
  {
    if |s| == 0 {
      assert s + [x] == [x];
    } else {
      assert (s + [x])[1..] == s[1..] + [x];
      FilterSnoc(s[1..], x, keep);
    }
  }

  /** Filters by predicates that agree everywhere agree. */
  lemma {:induction false} FilterSamePredicate<T(!new)>(s: seq<T>, p: T -> bool, q: T -> bool)
    requires forall x :: p(x) == q(x)
    ensures Filter(s, p) == Filter(s, q)
    decreases |s|
  {
    if |s| > 0 {
      FilterSamePredicate(s[1..], p, q);
    }
  }

  /** A filter that keeps everything is the identity. */
  lemma {:induction false} FilterAll<T(!new)>(s: seq<T>, keep: T -> bool)
    requires forall x :: x in s ==> keep(x)
    ensures Filter(s, keep) == s
    decreases |s|
  {
    if |s| > 0 {
      assert forall x :: x in s[1..] ==> x in s;
      FilterAll(s[1..], keep);
      assert s == [s[0]] + s[1..];
    }
  }
}
