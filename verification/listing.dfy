/** Listing (`GET /issues`): the stored issues, narrowed first by an
    optional status and then by an optional category. */
module Listing {

  import opened Wrappers
  import opened Issues
  import opened IssueStore

  /** An issue matches when it agrees with every filter that is given. */
  predicate Matches(issue: Issue, status: Option<Status>, category: Option<Category>)
  {
    && (status.Some? ==> issue.status == status.value)
    && (category.Some? ==> issue.category == category.value)
  }

  function HasStatus(status: Status): Issue -> bool
  {
    (x: Issue) => x.status == status
  }

  function HasCategory(category: Category): Issue -> bool
  {
    (x: Issue) => x.category == category
  }

  function MatchesAll(status: Option<Status>, category: Option<Category>): Issue -> bool
  {
    (x: Issue) => Matches(x, status, category)
  }

  /** `list_issues`: the dict's values in insertion order, then one
      comprehension per filter that is given. */
  function ListIssues(store: Store, status: Option<Status>, category: Option<Category>): (r: seq<Issue>)
    ensures forall x :: x in r <==> x in store && Matches(x, status, category)
    ensures |r| <= |store|
  {
    var byStatus := if status.Some? then Filter(store, HasStatus(status.value)) else store;
    if category.Some? then Filter(byStatus, HasCategory(category.value)) else byStatus
  }

  /** The listing is the single conjunctive filter of the store, so it keeps
      the store's order: it is a subsequence of the store. */
  lemma {:induction false} ListIssuesIsConjunctiveFilter(store: Store, status: Option<Status>, category: Option<Category>)
    ensures ListIssues(store, status, category) == Filter(store, MatchesAll(status, category))
    ensures Subsequence(ListIssues(store, status, category), store)
  {
    var matches := MatchesAll(status, category);
    if status.Some? && category.Some? {
      var byStatus, byCategory := HasStatus(status.value), HasCategory(category.value);
      FilterTwice(store, byStatus, byCategory);
      FilterSamePredicate(store, Both(byStatus, byCategory), matches);
    } else if status.Some? {
      FilterSamePredicate(store, HasStatus(status.value), matches);
    } else if category.Some? {
      FilterSamePredicate(store, HasCategory(category.value), matches);
    } else {
      FilterAll(store, matches);
    }
    FilterIsSubsequence(store, matches);
  }

  /** With no filter the listing is the whole store, in order. */
  lemma ListAllIsStore(store: Store)
    ensures ListIssues(store, None, None) == store
  {
  }

  /** Three reports, two of them potholes: filtering by pothole lists
      exactly the two potholes, first one first. */
  lemma PotholeListingScenario(a: Issue, b: Issue, c: Issue)
    requires a.category == Pothole && b.category == Garbage && c.category == Pothole
    ensures ListIssues([a, b, c], None, Some(Pothole)) == [a, c]
  {
    var keep := HasCategory(Pothole);
    assert [a, b, c][1..] == [b, c];
    assert [b, c][1..] == [c];
    assert [c][1..] == [];
    assert Filter([c], keep) == [c];
    assert Filter([b, c], keep) == [c];
  }
}
