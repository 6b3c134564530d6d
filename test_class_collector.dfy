/**
 * `TestClassCollector`: the vintage engine's collection of test classes to
 * build runners for. Some classes are run completely; others only through the
 * filters collected for them, in a `LinkedHashMap` from class to the list of
 * its filters. The map is held as its key order plus the lists per key.
 */
module TestClassCollection {
  import opened Common

  /** A `TestClassRequest`: a class and its filters (none for a complete class). */
  datatype TestClassRequest<F> = TestClassRequest(testClass: JavaClass, filters: seq<F>)

  /** The classes of a sequence of `addFiltered` calls, in call order. */
  function ClassesOf<F>(additions: seq<(JavaClass, F)>): (r: seq<JavaClass>)
    ensures |r| == |additions|
    ensures forall i :: 0 <= i < |additions| ==> r[i] == additions[i].0
  {
    if additions == [] then []
    else ClassesOf(additions[..|additions| - 1]) + [additions[|additions| - 1].0]
  }

  /** The filters added for `testClass`, in call order. */
  function FiltersFor<F>(additions: seq<(JavaClass, F)>, testClass: JavaClass): seq<F> {
    if additions == [] then []
    else
      var last := additions[|additions| - 1];
      FiltersFor(additions[..|additions| - 1], testClass) + (if last.0 == testClass then [last.1] else [])
  }

  lemma {:induction false} FiltersForNonEmpty<F>(additions: seq<(JavaClass, F)>, testClass: JavaClass)
    ensures FiltersFor(additions, testClass) != [] <==> testClass in ClassesOf(additions)
  {
    if additions != [] {
      FiltersForNonEmpty(additions[..|additions| - 1], testClass);
    }
  }

  /** One more `addFiltered` call: how the classes, the key order and the lists grow. */
  lemma AdditionUnfolds<F>(previous: seq<(JavaClass, F)>, testClass: JavaClass, filter: F)
    ensures ClassesOf(previous + [(testClass, filter)]) == ClassesOf(previous) + [testClass]
    ensures InsertionOrder(ClassesOf(previous + [(testClass, filter)]))
         == LinkedAdd(InsertionOrder(ClassesOf(previous)), testClass)
    ensures forall c :: FiltersFor(previous + [(testClass, filter)], c)
                     == FiltersFor(previous, c) + (if c == testClass then [filter] else [])
  {
    var next := previous + [(testClass, filter)];
    assert next[..|next| - 1] == previous;
    var classes := ClassesOf(next);
    assert classes[..|classes| - 1] == ClassesOf(previous);
  }

  /** Complete requests followed by filtered requests, position by position. */
  lemma RequestsConcatenate<F>(complete: seq<TestClassRequest<F>>, filtered: seq<TestClassRequest<F>>,
                               classes: seq<JavaClass>, keys: seq<JavaClass>, additions: seq<(JavaClass, F)>)
    requires |complete| == |classes| && forall i :: 0 <= i < |complete| ==> complete[i] == TestClassRequest(classes[i], [])
    requires |filtered| == |keys|
    requires forall j :: 0 <= j < |filtered| ==> filtered[j] == TestClassRequest(keys[j], FiltersFor(additions, keys[j]))
    ensures |complete + filtered| == |classes| + |keys|
    ensures forall i :: 0 <= i < |classes| ==> (complete + filtered)[i] == TestClassRequest(classes[i], [])
    ensures forall k :: |classes| <= k < |complete + filtered| ==>
              var c := keys[k - |classes|];
              (complete + filtered)[k] == TestClassRequest(c, FiltersFor(additions, c))
  {
  }

  class TestClassCollector<F> {
    const completeTestClasses: seq<JavaClass>
    /** The keys of the `LinkedHashMap`, in insertion order. */
    var filteredClasses: seq<JavaClass>
    /** The list each key maps to. */
    var filtersOf: map<JavaClass, seq<F>>
    /** Every `addFiltered` call so far, in order. */
    ghost var additions: seq<(JavaClass, F)>

    /**
     * The map is exactly the grouping of the calls so far: keys in the order
     * their class was first added, each mapped to all its filters in call order.
     */
    ghost predicate Valid()
      reads this
    {
      && filteredClasses == InsertionOrder(ClassesOf(additions))
      && (forall c :: c in filtersOf <==> c in filteredClasses)
      && (forall c :: c in filtersOf ==> filtersOf[c] == FiltersFor(additions, c))
    }

    constructor (completeTestClasses: seq<JavaClass>)
      ensures Valid()
      ensures this.completeTestClasses == completeTestClasses
      ensures filteredClasses == [] && filtersOf == map[] && additions == []
    {
      this.completeTestClasses := completeTestClasses;
      filteredClasses := [];
      filtersOf := map[];
      additions := [];
    }

    /**
     * `addFiltered`: `computeIfAbsent(testClass, new list).add(filter)`. A new
     * class becomes the last key with the list [filter]; a known class gets
     * the filter appended; no other entry and no key position changes.
     */
    method AddFiltered(testClass: JavaClass, filter: F)
      requires Valid()
      modifies this
      ensures Valid()
      ensures additions == old(additions) + [(testClass, filter)]
      ensures testClass !in old(filtersOf) ==>
                filteredClasses == old(filteredClasses) + [testClass] && filtersOf == old(filtersOf)[testClass := [filter]]
      ensures testClass in old(filtersOf) ==>
                filteredClasses == old(filteredClasses)
                && filtersOf == old(filtersOf)[testClass := old(filtersOf)[testClass] + [filter]]
    {
      ghost var previous := additions;
      additions := additions + [(testClass, filter)];
      AdditionUnfolds(previous, testClass, filter);
      if testClass in filtersOf {
        filtersOf := filtersOf[testClass := filtersOf[testClass] + [filter]];
      } else {
        FiltersForNonEmpty(previous, testClass);
        InsertionOrderContents(ClassesOf(previous));
        filteredClasses := filteredClasses + [testClass];
        filtersOf := filtersOf[testClass := [filter]];
      }
      forall c | c in filtersOf ensures filtersOf[c] == FiltersFor(additions, c) {
        if c != testClass {
          assert filtersOf[c] == old(filtersOf)[c];
        }
      }
    }

    /** `completeRequests`: one request without filters per complete class. */
    function CompleteRequests(): (r: seq<TestClassRequest<F>>)
      reads this
      ensures |r| == |completeTestClasses|
      ensures forall i :: 0 <= i < |r| ==> r[i] == TestClassRequest(completeTestClasses[i], [])
    {
      var complete := completeTestClasses;
      seq(|complete|, i requires 0 <= i < |complete| => TestClassRequest(complete[i], []))
    }

    /** `filteredRequests`: one request per map entry, in key order. */
    function FilteredRequests(): (r: seq<TestClassRequest<F>>)
      reads this
      requires Valid()
      ensures |r| == |filteredClasses|
      ensures forall j :: 0 <= j < |r| ==>
                r[j] == TestClassRequest(filteredClasses[j], FiltersFor(additions, filteredClasses[j]))
    {
      var keys, lists := filteredClasses, filtersOf;
      seq(|keys|, i requires 0 <= i < |keys| => TestClassRequest(keys[i], if keys[i] in lists then lists[keys[i]] else []))
    }

    /**
     * `toRequests`: every complete request, then one request per filtered
     * class, in the order the classes were first added, each with every
     * filter added for it in call order.
     */
    function ToRequests(): (r: seq<TestClassRequest<F>>)
      reads this
      requires Valid()
      ensures |r| == |completeTestClasses| + |filteredClasses|
      ensures forall i :: 0 <= i < |completeTestClasses| ==> r[i] == TestClassRequest(completeTestClasses[i], [])
      ensures forall k :: |completeTestClasses| <= k < |r| ==>
                var c := filteredClasses[k - |completeTestClasses|];
                r[k] == TestClassRequest(c, FiltersFor(additions, c))
    {
      var complete, filtered := CompleteRequests(), FilteredRequests();
      RequestsConcatenate(complete, filtered, completeTestClasses, filteredClasses, additions);
      complete + filtered
    }
  }

  /** The keys of the map are exactly the classes passed to `addFiltered`. */
  lemma KeysAreTheAddedClasses<F>(additions: seq<(JavaClass, F)>)
    ensures forall c :: c in InsertionOrder(ClassesOf(additions)) <==> exists i :: 0 <= i < |additions| && additions[i].0 == c
  {
    var classes := ClassesOf(additions);
    InsertionOrderContents(classes);
    forall c ensures c in classes <==> exists i :: 0 <= i < |additions| && additions[i].0 == c {
      if c in classes {
        var i :| 0 <= i < |classes| && classes[i] == c;
        assert additions[i].0 == c;
      }
    }
  }

  /** Every key of the map has at least one filter. */
  lemma KeysHaveFilters<F>(additions: seq<(JavaClass, F)>)
    ensures forall c :: c in InsertionOrder(ClassesOf(additions)) ==> FiltersFor(additions, c) != []
  {
    InsertionOrderContents(ClassesOf(additions));
    forall c | c in InsertionOrder(ClassesOf(additions)) ensures FiltersFor(additions, c) != [] {
      FiltersForNonEmpty(additions, c);
    }
  }

  /**
   * Each class added through `addFiltered` yields exactly one filtered
   * request, and the filtered requests follow the order in which their
   * classes were first added.
   */
  lemma FilteredRequestsAreFirstAdditionOrdered<F>(additions: seq<(JavaClass, F)>)
    ensures var keys := InsertionOrder(ClassesOf(additions));
      && NoDuplicates(keys)
      && (forall c :: c in keys <==> exists i :: 0 <= i < |additions| && additions[i].0 == c)
      && (forall i, j :: 0 <= i < j < |keys| ==>
            keys[i] in ClassesOf(additions) && keys[j] in ClassesOf(additions) &&
            FirstIndex(ClassesOf(additions), keys[i]) < FirstIndex(ClassesOf(additions), keys[j]))
      && (forall c :: c in keys ==> FiltersFor(additions, c) != [])
  {
    InsertionOrderContents(ClassesOf(additions));
    InsertionOrderIsFirstOccurrenceOrder(ClassesOf(additions));
    KeysAreTheAddedClasses(additions);
    KeysHaveFilters(additions);
  }
}
