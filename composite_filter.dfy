/**
 * `CompositeFilter`: an ordered, non-empty list of filters combined with AND.
 * A filter is modelled by what it answers: its verdict per element, the
 * predicate it converts to, and its string form.
 */
module CompositeFilters {
  import opened Common

  /** `FilterResult`: included or excluded, with an optional reason. */
  datatype FilterResult = FilterResult(included: bool, reason: Option<string>) {
    predicate Excluded() { !included }
  }

  /** `FilterResult.included(reason)`. */
  function Included(reason: string): FilterResult {
    FilterResult(true, Some(reason))
  }

  /** A filter over elements of type T. */
  datatype Filter<!T> = Filter(apply: T -> FilterResult, toPredicate: T -> bool, text: string)

  /** The default `Filter.toPredicate`: the predicate holds exactly when the filter includes. */
  ghost predicate PredicateAgreesWithApply<T(!new)>(f: Filter<T>) {
    forall x :: f.toPredicate(x) == f.apply(x).included
  }

  const ALWAYS_INCLUDED_REASON := "Always included"
  const INCLUDED_BY_ALL_FILTERS_REASON := "Element was included by all filters."

  /**
   * The string form of the anonymous always-included filter. Java prints the
   * anonymous class name followed by an identity hash; the hash is not modelled.
   */
  const ALWAYS_INCLUDED_TEXT := "org.junit.platform.engine.CompositeFilter$1"

  /** `CompositeFilter.alwaysIncluded()`: includes everything, for the same reason. */
  function AlwaysIncluded<T(!new)>(): (f: Filter<T>)
    ensures forall x :: f.apply(x) == Included(ALWAYS_INCLUDED_REASON)
    ensures forall x :: f.toPredicate(x)
  {
    Filter(_ => Included(ALWAYS_INCLUDED_REASON), _ => true, ALWAYS_INCLUDED_TEXT)
  }

  /** The filters of a composite, in the order given to the constructor. */
  datatype CompositeFilter<!T> = CompositeFilter(filters: seq<Filter<T>>)

  /** The constructor: `Preconditions.notEmpty(filters, ...)`, then a copy of the list. */
  function Create<T>(filters: seq<Filter<T>>): (r: Result<CompositeFilter<T>, PreconditionViolation>)
    ensures r.Err? <==> filters == []
    ensures r.Err? ==> r.error == PreconditionViolation("filters must not be empty")
    ensures r.Ok? ==> r.value.filters == filters
  {
    if filters == [] then Err(PreconditionViolation("filters must not be empty"))
    else Ok(CompositeFilter(filters))
  }

  /** The outcome of the lazy `map`/`filter`/`findFirst` pipeline: the result and how many filters it applied. */
  datatype Evaluation = Evaluation(result: FilterResult, applied: nat)

  /** Applies the filters in order and stops at the first exclusion. */
  function Evaluate<T>(filters: seq<Filter<T>>, element: T): (e: Evaluation)
    ensures e.applied <= |filters|
    ensures e.result.Excluded() ==> e.applied >= 1 && filters[e.applied - 1].apply(element) == e.result
    ensures e.result.included ==> e.result == Included(INCLUDED_BY_ALL_FILTERS_REASON)
  {
    if filters == [] then Evaluation(Included(INCLUDED_BY_ALL_FILTERS_REASON), 0)
    else
      var first := filters[0].apply(element);
      if first.Excluded() then Evaluation(first, 1)
      else
        var rest := Evaluate(filters[1..], element);
        Evaluation(rest.result, rest.applied + 1)
  }

  /**
   * `CompositeFilter.apply`: an exclusion is the very result of one of the
   * filters; an inclusion is always the fixed "included by all filters" result.
   */
  function Apply<T>(cf: CompositeFilter<T>, element: T): (r: FilterResult)
    ensures r.Excluded() ==> exists k :: 0 <= k < |cf.filters| && cf.filters[k].apply(element) == r
    ensures r.included ==> r == Included(INCLUDED_BY_ALL_FILTERS_REASON)
  {
    Evaluate(cf.filters, element).result
  }

  /** The position of the first excluding filter, when one excludes. */
  lemma {:induction false} FirstExcluding<T>(filters: seq<Filter<T>>, element: T) returns (k: nat)
    requires exists k :: 0 <= k < |filters| && filters[k].apply(element).Excluded()
    ensures k < |filters| && filters[k].apply(element).Excluded()
    ensures forall j :: 0 <= j < k ==> filters[j].apply(element).included
  {
    if filters[0].apply(element).Excluded() {
      k := 0;
    } else {
      var i :| 0 <= i < |filters| && filters[i].apply(element).Excluded();
      assert filters[1..][i - 1] == filters[i];
      var k' := FirstExcluding(filters[1..], element);
      k := k' + 1;
      assert forall j :: 1 <= j < k ==> filters[j] == filters[1..][j - 1];
    }
  }

  /** When filter k excludes and every earlier one includes, the evaluation returns filter k's result. */
  lemma {:induction false} FirstExclusionDecides<T>(filters: seq<Filter<T>>, element: T, k: nat)
    requires k < |filters| && filters[k].apply(element).Excluded()
    requires forall j :: 0 <= j < k ==> filters[j].apply(element).included
    ensures Evaluate(filters, element).result == filters[k].apply(element)
  {
    if k > 0 {
      assert forall j :: 0 <= j < k - 1 ==> filters[1..][j] == filters[j + 1];
      FirstExclusionDecides(filters[1..], element, k - 1);
    }
  }

  /**
   * `apply` returns exactly the result of the first excluding filter in list
   * order, and the fixed "included by all filters" result when none excludes.
   */
  lemma {:induction false} ApplyIsFirstExclusion<T>(filters: seq<Filter<T>>, element: T)
    ensures (exists k :: 0 <= k < |filters| && filters[k].apply(element).Excluded()) ==>
              exists k :: 0 <= k < |filters| && filters[k].apply(element).Excluded()
                && (forall j :: 0 <= j < k ==> filters[j].apply(element).included)
                && Apply(CompositeFilter(filters), element) == filters[k].apply(element)
    ensures (forall k :: 0 <= k < |filters| ==> filters[k].apply(element).included) ==>
              Apply(CompositeFilter(filters), element) == Included(INCLUDED_BY_ALL_FILTERS_REASON)
  {
    if exists k :: 0 <= k < |filters| && filters[k].apply(element).Excluded() {
      var k := FirstExcluding(filters, element);
      FirstExclusionDecides(filters, element, k);
    }
  }

  /** The composite includes an element iff every one of its filters does. */
  lemma {:induction false} ApplyIncludesIffAllInclude<T>(filters: seq<Filter<T>>, element: T)
    ensures Apply(CompositeFilter(filters), element).included <==>
              forall k :: 0 <= k < |filters| ==> filters[k].apply(element).included
  {
    if filters != [] && filters[0].apply(element).included {
      ApplyIncludesIffAllInclude(filters[1..], element);
      assert forall k :: 1 <= k < |filters| ==> filters[k] == filters[1..][k - 1];
    }
  }

  /**
   * Laziness: the filters applied are a prefix that ends at the first exclusion,
   * and the filters after it do not influence the result in any way.
   */
  lemma {:induction false} ApplyShortCircuits<T>(filters: seq<Filter<T>>, element: T, later: seq<Filter<T>>)
    ensures var e := Evaluate(filters, element);
      && (forall j :: 0 <= j < e.applied - 1 ==> filters[j].apply(element).included)
      && (e.applied < |filters| ==>
            e.applied >= 1 && filters[e.applied - 1].apply(element).Excluded()
            && Evaluate(filters[..e.applied] + later, element) == e)
  {
    if filters != [] && filters[0].apply(element).included {
      var e' := Evaluate(filters[1..], element);
      ApplyShortCircuits(filters[1..], element, later);
      assert forall j :: 1 <= j < |filters| ==> filters[j] == filters[1..][j - 1];
      if e'.applied < |filters| - 1 {
        assert (filters[..e'.applied + 1] + later)[1..] == filters[1..][..e'.applied] + later;
      }
    }
  }

  /** The always-included filter is an identity: inserting it anywhere leaves `apply` unchanged. */
  lemma {:induction false} AlwaysIncludedIsIdentity<T(!new)>(before: seq<Filter<T>>, after: seq<Filter<T>>, element: T)
    ensures Apply(CompositeFilter(before + [AlwaysIncluded()] + after), element)
         == Apply(CompositeFilter(before + after), element)
  {
    if before == [] {
      var fs := [AlwaysIncluded<T>()] + after;
      assert before + [AlwaysIncluded()] + after == fs && before + after == after;
      assert fs[0].apply(element).included && fs[1..] == after;
      assert Evaluate(fs, element).result == Evaluate(after, element).result;
    } else {
      AlwaysIncludedIsIdentity(before[1..], after, element);
      assert (before + [AlwaysIncluded()] + after)[1..] == before[1..] + [AlwaysIncluded()] + after;
      assert (before + after)[1..] == before[1..] + after;
    }
  }

  /** `Predicate::and`, which short-circuits like `&&`. */
  function And<T>(p: T -> bool, q: T -> bool): T -> bool {
    x => p(x) && q(x)
  }

  /** `reduce(Predicate::and).get()`: a left fold, defined on a non-empty list. */
  function Reduce<T(!new)>(predicates: seq<T -> bool>): (p: T -> bool)
    requires |predicates| > 0
    ensures forall x :: p(x) <==> forall i :: 0 <= i < |predicates| ==> predicates[i](x)
  {
    if |predicates| == 1 then predicates[0]
    else And(Reduce(predicates[..|predicates| - 1]), predicates[|predicates| - 1])
  }

  /** `CompositeFilter.toPredicate`: the constructor's non-empty guarantee makes `get()` total. */
  function ToPredicate<T(!new)>(cf: CompositeFilter<T>): (p: T -> bool)
    requires |cf.filters| > 0
    ensures forall x :: p(x) <==> forall i :: 0 <= i < |cf.filters| ==> cf.filters[i].toPredicate(x)
  {
    var predicates := seq(|cf.filters|, i requires 0 <= i < |cf.filters| => cf.filters[i].toPredicate);
    assert forall i :: 0 <= i < |cf.filters| ==> predicates[i] == cf.filters[i].toPredicate;
    Reduce(predicates)
  }

  /** When each filter's predicate is its default one, the composite's predicate is its own verdict. */
  lemma ToPredicateAgreesWithApply<T(!new)>(cf: CompositeFilter<T>, element: T)
    requires |cf.filters| > 0
    requires forall i :: 0 <= i < |cf.filters| ==> PredicateAgreesWithApply(cf.filters[i])
    ensures ToPredicate(cf)(element) == Apply(cf, element).included
  {
    ApplyIncludesIffAllInclude(cf.filters, element);
  }

  /** `CompositeFilter.toString`: each filter's string in parentheses, joined by " and ". */
  function ToString<T>(filters: seq<Filter<T>>): (s: string)
    ensures s == "" <==> filters == []
  {
    if filters == [] then ""
    else if |filters| == 1 then "(" + filters[0].text + ")"
    else "(" + filters[0].text + ")" + " and " + ToString(filters[1..])
  }

  /** Appending a filter appends " and (text)" to the string form. */
  lemma {:induction false} ToStringAppend<T>(filters: seq<Filter<T>>, f: Filter<T>)
    ensures ToString([f]) == "(" + f.text + ")"
    ensures filters != [] ==> ToString(filters + [f]) == ToString(filters) + " and (" + f.text + ")"
  {
    var head := "(" + f.text + ")";
    assert ToString([f]) == head;
    if filters != [] {
      var all := filters + [f];
      var first := "(" + filters[0].text + ")";
      assert all[0] == filters[0] && |all| > 1;
      assert all[1..] == filters[1..] + [f];
      if |filters| == 1 {
        assert filters[1..] + [f] == [f];
        calc {
          ToString(all);
          first + " and " + ToString([f]);
          first + " and " + head;
        }
      } else {
        ToStringAppend(filters[1..], f);
        calc {
          ToString(all);
          first + " and " + ToString(filters[1..] + [f]);
          first + " and " + (ToString(filters[1..]) + " and " + head);
          (first + " and " + ToString(filters[1..])) + " and " + head;
        }
      }
    }
  }
}
