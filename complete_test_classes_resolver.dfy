/**
 * `CompleteTestClassesResolver`: the vintage engine's test classes that are
 * run completely, gathered into a `LinkedHashSet` from the classpath-root
 * selectors, then the package selectors, then the class selectors of a
 * discovery request. Classpath scanning is an input to the model.
 */
module CompleteTestClasses {
  import opened Common

  /** The selectors of a discovery request that this resolver looks at; any other kind is ignored. */
  datatype DiscoverySelector =
    | ClasspathRootSelector(classpathRoot: string)
    | PackageSelector(packageName: string)
    | ClassSelector(javaClass: JavaClass)
    | OtherSelector

  datatype EngineDiscoveryRequest = EngineDiscoveryRequest(selectors: seq<DiscoverySelector>)

  /** `ClassFilter.of(namePredicate, classPredicate)`. */
  datatype ClassFilter = ClassFilter(namePredicate: string -> bool, classPredicate: JavaClass -> bool)

  /** The class filter accepts a class when its name and the class itself both pass. */
  predicate Accepts(filter: ClassFilter, c: JavaClass) {
    filter.namePredicate(c.name) && filter.classPredicate(c)
  }

  /**
   * The classes found by scanning, in scan order, before any filter: what
   * `ReflectionUtils.findAllClassesInClasspathRoot` and `findAllClassesInPackage`
   * walk over.
   */
  datatype ClassUniverse = ClassUniverse(inClasspathRoot: string -> seq<JavaClass>, inPackage: string -> seq<JavaClass>)

  /** The classes of `classes` that the filter accepts, in order. */
  function FilterClasses(classes: seq<JavaClass>, filter: ClassFilter): (r: seq<JavaClass>)
    ensures forall c :: c in r <==> c in classes && Accepts(filter, c)
  {
    if classes == [] then []
    else FilterClasses(classes[..|classes| - 1], filter)
         + (if Accepts(filter, classes[|classes| - 1]) then [classes[|classes| - 1]] else [])
  }

  /**
   * The filter keeps order and multiplicity: filtering a list split in two gives
   * the accepted classes of the first part followed by those of the second, and
   * a single class is kept exactly when the filter accepts it.
   */
  lemma {:induction false} FilterClassesAppend(a: seq<JavaClass>, b: seq<JavaClass>, filter: ClassFilter)
    ensures FilterClasses(a + b, filter) == FilterClasses(a, filter) + FilterClasses(b, filter)
    ensures |a| == 1 ==> FilterClasses(a, filter) == (if Accepts(filter, a[0]) then a else [])
  {
    if |a| == 1 {
      assert a[..0] == [];
    }
    if b == [] {
      assert a + b == a;
    } else {
      var n := |b| - 1;
      var last := if Accepts(filter, b[n]) then [b[n]] else [];
      assert (a + b)[..|a + b| - 1] == a + b[..n];
      assert (a + b)[|a + b| - 1] == b[n];
      calc {
        FilterClasses(a + b, filter);
        FilterClasses(a + b[..n], filter) + last;
        { FilterClassesAppend(a, b[..n], filter); }
        FilterClasses(a, filter) + FilterClasses(b[..n], filter) + last;
        FilterClasses(a, filter) + (FilterClasses(b[..n], filter) + last);
      }
    }
  }

  /** `findAllClassesInClasspathRoot(root, classFilter)`. */
  function FindAllClassesInClasspathRoot(universe: ClassUniverse, root: string, filter: ClassFilter): seq<JavaClass> {
    FilterClasses(universe.inClasspathRoot(root), filter)
  }

  /** `findAllClassesInPackage(packageName, classFilter)`. */
  function FindAllClassesInPackage(universe: ClassUniverse, packageName: string, filter: ClassFilter): seq<JavaClass> {
    FilterClasses(universe.inPackage(packageName), filter)
  }

  /** `getSelectorsByType(ClasspathRootSelector.class)`, mapped to the roots. */
  function ClasspathRoots(selectors: seq<DiscoverySelector>): (r: seq<string>)
    ensures forall x :: x in r <==> ClasspathRootSelector(x) in selectors
  {
    if selectors == [] then []
    else (if selectors[0].ClasspathRootSelector? then [selectors[0].classpathRoot] else [])
         + ClasspathRoots(selectors[1..])
  }

  /**
   * Selector order and multiplicity are kept: the selectors split in two give
   * the first part's roots followed by the second's, and a single selector
   * gives its root exactly when it is a `ClasspathRootSelector`.
   */
  lemma {:induction false} ClasspathRootsAppend(a: seq<DiscoverySelector>, b: seq<DiscoverySelector>)
    ensures ClasspathRoots(a + b) == ClasspathRoots(a) + ClasspathRoots(b)
    ensures |a| == 1 ==> ClasspathRoots(a) == (if a[0].ClasspathRootSelector? then [a[0].classpathRoot] else [])
  {
    if a == [] {
      assert a + b == b;
    } else {
      var head := if a[0].ClasspathRootSelector? then [a[0].classpathRoot] else [];
      assert (a + b)[0] == a[0];
      assert (a + b)[1..] == a[1..] + b;
      calc {
        ClasspathRoots(a + b);
        head + ClasspathRoots(a[1..] + b);
        { ClasspathRootsAppend(a[1..], b); }
        head + (ClasspathRoots(a[1..]) + ClasspathRoots(b));
        (head + ClasspathRoots(a[1..])) + ClasspathRoots(b);
      }
      if |a| == 1 {
        assert a[1..] == [];
      }
    }
  }

  /** `getSelectorsByType(PackageSelector.class)`, mapped to the package names. */
  function PackageNames(selectors: seq<DiscoverySelector>): (r: seq<string>)
    ensures forall x :: x in r <==> PackageSelector(x) in selectors
  {
    if selectors == [] then []
    else (if selectors[0].PackageSelector? then [selectors[0].packageName] else [])
         + PackageNames(selectors[1..])
  }

  /**
   * Selector order and multiplicity are kept: the selectors split in two give
   * the first part's package names followed by the second's, and a single selector
   * gives its package name exactly when it is a `PackageSelector`.
   */
  lemma {:induction false} PackageNamesAppend(a: seq<DiscoverySelector>, b: seq<DiscoverySelector>)
    ensures PackageNames(a + b) == PackageNames(a) + PackageNames(b)
    ensures |a| == 1 ==> PackageNames(a) == (if a[0].PackageSelector? then [a[0].packageName] else [])
  {
    if a == [] {
      assert a + b == b;
    } else {
      var head := if a[0].PackageSelector? then [a[0].packageName] else [];
      assert (a + b)[0] == a[0];
      assert (a + b)[1..] == a[1..] + b;
      calc {
        PackageNames(a + b);
        head + PackageNames(a[1..] + b);
        { PackageNamesAppend(a[1..], b); }
        head + (PackageNames(a[1..]) + PackageNames(b));
        (head + PackageNames(a[1..])) + PackageNames(b);
      }
      if |a| == 1 {
        assert a[1..] == [];
      }
    }
  }

  /** `getSelectorsByType(ClassSelector.class)`, mapped to the classes. */
  function SelectedClasses(selectors: seq<DiscoverySelector>): (r: seq<JavaClass>)
    ensures forall x :: x in r <==> ClassSelector(x) in selectors
  {
    if selectors == [] then []
    else (if selectors[0].ClassSelector? then [selectors[0].javaClass] else [])
         + SelectedClasses(selectors[1..])
  }

  /**
   * Selector order and multiplicity are kept: the selectors split in two give
   * the first part's classs followed by the second's, and a single selector
   * gives its class exactly when it is a `ClassSelector`.
   */
  lemma {:induction false} SelectedClassesAppend(a: seq<DiscoverySelector>, b: seq<DiscoverySelector>)
    ensures SelectedClasses(a + b) == SelectedClasses(a) + SelectedClasses(b)
    ensures |a| == 1 ==> SelectedClasses(a) == (if a[0].ClassSelector? then [a[0].javaClass] else [])
  {
    if a == [] {
      assert a + b == b;
    } else {
      var head := if a[0].ClassSelector? then [a[0].javaClass] else [];
      assert (a + b)[0] == a[0];
      assert (a + b)[1..] == a[1..] + b;
      calc {
        SelectedClasses(a + b);
        head + SelectedClasses(a[1..] + b);
        { SelectedClassesAppend(a[1..], b); }
        head + (SelectedClasses(a[1..]) + SelectedClasses(b));
        (head + SelectedClasses(a[1..])) + SelectedClasses(b);
      }
      if |a| == 1 {
        assert a[1..] == [];
      }
    }
  }

  /** `resolveClasspathRootSelector`: one scan result per root, in selector order. */
  function ResolveClasspathRootSelector(request: EngineDiscoveryRequest, universe: ClassUniverse, filter: ClassFilter)
    : (r: seq<seq<JavaClass>>)
    ensures |r| == |ClasspathRoots(request.selectors)|
    ensures forall i, c :: 0 <= i < |r| ==>
              (c in r[i] <==> c in universe.inClasspathRoot(ClasspathRoots(request.selectors)[i]) && Accepts(filter, c))
  {
    var roots := ClasspathRoots(request.selectors);
    seq(|roots|, i requires 0 <= i < |roots| => FindAllClassesInClasspathRoot(universe, roots[i], filter))
  }

  /** `resolvePackageSelector`: one scan result per package, in selector order. */
  function ResolvePackageSelector(request: EngineDiscoveryRequest, universe: ClassUniverse, filter: ClassFilter)
    : (r: seq<seq<JavaClass>>)
    ensures |r| == |PackageNames(request.selectors)|
    ensures forall i, c :: 0 <= i < |r| ==>
              (c in r[i] <==> c in universe.inPackage(PackageNames(request.selectors)[i]) && Accepts(filter, c))
  {
    var packages := PackageNames(request.selectors);
    seq(|packages|, i requires 0 <= i < |packages| => FindAllClassesInPackage(universe, packages[i], filter))
  }

  /** `resolveClassSelector`: the selected classes that the filter accepts, in selector order. */
  function ResolveClassSelector(request: EngineDiscoveryRequest, filter: ClassFilter): (r: seq<JavaClass>)
    ensures forall c :: c in r <==> ClassSelector(c) in request.selectors && Accepts(filter, c)
  {
    FilterClasses(SelectedClasses(request.selectors), filter)
  }

  /**
   * The accepted selected classes keep selector order and multiplicity: a
   * request whose selectors are split in two gives the first part's classes
   * followed by the second's, and a single selector gives its class exactly
   * when it is a class selector whose class the filter accepts.
   */
  lemma {:induction false} ResolveClassSelectorAppend(a: seq<DiscoverySelector>, b: seq<DiscoverySelector>,
                                                      filter: ClassFilter)
    ensures ResolveClassSelector(EngineDiscoveryRequest(a + b), filter)
         == ResolveClassSelector(EngineDiscoveryRequest(a), filter) + ResolveClassSelector(EngineDiscoveryRequest(b), filter)
    ensures |a| == 1 ==>
              (ResolveClassSelector(EngineDiscoveryRequest(a), filter)
                 == if a[0].ClassSelector? && Accepts(filter, a[0].javaClass) then [a[0].javaClass] else [])
  {
    SelectedClassesAppend(a, b);
    FilterClassesAppend(SelectedClasses(a), SelectedClasses(b), filter);
    if |a| == 1 {
      SelectedClassesAppend(a, []);
      if a[0].ClassSelector? {
        FilterClassesAppend(SelectedClasses(a), [], filter);
      }
    }
  }

  function Flatten(lists: seq<seq<JavaClass>>): seq<JavaClass> {
    if lists == [] then [] else Flatten(lists[..|lists| - 1]) + lists[|lists| - 1]
  }

  lemma FlattenMember(lists: seq<seq<JavaClass>>, c: JavaClass)
    ensures c in Flatten(lists) <==> exists i :: 0 <= i < |lists| && c in lists[i]
  {
    if lists != [] {
      FlattenMember(lists[..|lists| - 1], c);
      assert forall i :: 0 <= i < |lists| - 1 ==> lists[..|lists| - 1][i] == lists[i];
    }
  }

  /** Every class `resolve` adds, in the order it adds them (duplicates included). */
  function Candidates(request: EngineDiscoveryRequest, universe: ClassUniverse, filter: ClassFilter): seq<JavaClass> {
    Flatten(ResolveClasspathRootSelector(request, universe, filter))
      + Flatten(ResolvePackageSelector(request, universe, filter))
      + ResolveClassSelector(request, filter)
  }

  /** `addAll` of `classes` to a linked hash set holding the classes added so far. */
  method AddAll(testClasses: seq<JavaClass>, ghost added: seq<JavaClass>, classes: seq<JavaClass>)
    returns (r: seq<JavaClass>)
    requires testClasses == InsertionOrder(added)
    ensures r == InsertionOrder(added + classes)
  {
    r := testClasses;
    var i := 0;
    assert added + classes[..0] == added;
    while i < |classes|
      invariant 0 <= i <= |classes|
      invariant r == InsertionOrder(added + classes[..i])
    {
      assert (added + classes[..i + 1])[..|added| + i] == added + classes[..i];
      r := LinkedAdd(r, classes[i]);
      i := i + 1;
    }
    assert classes[..i] == classes;
  }

  /** `addAll` of each list in turn. */
  method AddEach(testClasses: seq<JavaClass>, ghost added: seq<JavaClass>, lists: seq<seq<JavaClass>>)
    returns (r: seq<JavaClass>)
    requires testClasses == InsertionOrder(added)
    ensures r == InsertionOrder(added + Flatten(lists))
  {
    r := testClasses;
    var i := 0;
    assert added + Flatten(lists[..0]) == added;
    while i < |lists|
      invariant 0 <= i <= |lists|
      invariant r == InsertionOrder(added + Flatten(lists[..i]))
    {
      assert lists[..i + 1][..i] == lists[..i];
      assert added + Flatten(lists[..i + 1]) == (added + Flatten(lists[..i])) + lists[i];
      r := AddAll(r, added + Flatten(lists[..i]), lists[i]);
      i := i + 1;
    }
    assert lists[..i] == lists;
  }

  /**
   * `resolve`: the root scans, then the package scans, then the selected
   * classes that the class filter accepts, added in that order to a linked
   * hash set.
   */
  method Resolve(request: EngineDiscoveryRequest, namePredicate: string -> bool,
                 isPotentialJUnit4TestClass: JavaClass -> bool, universe: ClassUniverse)
    returns (testClasses: seq<JavaClass>)
    ensures testClasses
         == InsertionOrder(Candidates(request, universe, ClassFilter(namePredicate, isPotentialJUnit4TestClass)))
  {
    var classFilter := ClassFilter(namePredicate, isPotentialJUnit4TestClass);
    var fromRoots := ResolveClasspathRootSelector(request, universe, classFilter);
    var fromPackages := ResolvePackageSelector(request, universe, classFilter);
    var fromClasses := ResolveClassSelector(request, classFilter);
    testClasses := [];
    testClasses := AddEach(testClasses, [], fromRoots);
    assert [] + Flatten(fromRoots) == Flatten(fromRoots);
    testClasses := AddEach(testClasses, Flatten(fromRoots), fromPackages);
    testClasses := AddAll(testClasses, Flatten(fromRoots) + Flatten(fromPackages), fromClasses);
  }

  // ---------------------------------------------------------------------------
  // Properties of the resolved set

  /** A class is among the root scans iff some selected root's scan found it. */
  lemma FromRootsMember(request: EngineDiscoveryRequest, universe: ClassUniverse, filter: ClassFilter, c: JavaClass)
    ensures c in Flatten(ResolveClasspathRootSelector(request, universe, filter)) <==>
              exists root :: root in ClasspathRoots(request.selectors)
                && c in FindAllClassesInClasspathRoot(universe, root, filter)
  {
    var fromRoots := ResolveClasspathRootSelector(request, universe, filter);
    var roots := ClasspathRoots(request.selectors);
    FlattenMember(fromRoots, c);
    if exists root :: root in roots && c in FindAllClassesInClasspathRoot(universe, root, filter) {
      var root :| root in roots && c in FindAllClassesInClasspathRoot(universe, root, filter);
      var i :| 0 <= i < |roots| && roots[i] == root;
      assert c in fromRoots[i];
    }
  }

  /** A class is among the package scans iff some selected package's scan found it. */
  lemma FromPackagesMember(request: EngineDiscoveryRequest, universe: ClassUniverse, filter: ClassFilter, c: JavaClass)
    ensures c in Flatten(ResolvePackageSelector(request, universe, filter)) <==>
              exists p :: p in PackageNames(request.selectors)
                && c in FindAllClassesInPackage(universe, p, filter)
  {
    var fromPackages := ResolvePackageSelector(request, universe, filter);
    var packages := PackageNames(request.selectors);
    FlattenMember(fromPackages, c);
    if exists p :: p in packages && c in FindAllClassesInPackage(universe, p, filter) {
      var p :| p in packages && c in FindAllClassesInPackage(universe, p, filter);
      var i :| 0 <= i < |packages| && packages[i] == p;
      assert c in fromPackages[i];
    }
  }

  /**
   * The resolved classes are duplicate-free and are exactly the classes found
   * under some classpath root or in some package, plus the selected classes
   * that the filter accepts; nothing else is added.
   */
  lemma ResolvedClassesAreTheUnion(request: EngineDiscoveryRequest, universe: ClassUniverse, filter: ClassFilter,
                                    c: JavaClass)
    ensures NoDuplicates(InsertionOrder(Candidates(request, universe, filter)))
    ensures c in InsertionOrder(Candidates(request, universe, filter)) <==>
              || (exists root :: root in ClasspathRoots(request.selectors)
                    && c in FindAllClassesInClasspathRoot(universe, root, filter))
              || (exists p :: p in PackageNames(request.selectors)
                    && c in FindAllClassesInPackage(universe, p, filter))
              || (c in SelectedClasses(request.selectors) && Accepts(filter, c))
  {
    InsertionOrderContents(Candidates(request, universe, filter));
    FromRootsMember(request, universe, filter, c);
    FromPackagesMember(request, universe, filter, c);
  }

  /** Every resolved class passes the class filter: its name and the class itself. */
  lemma ResolvedClassesPassTheFilter(request: EngineDiscoveryRequest, universe: ClassUniverse, filter: ClassFilter,
                                     c: JavaClass)
    requires c in InsertionOrder(Candidates(request, universe, filter))
    ensures filter.namePredicate(c.name) && filter.classPredicate(c)
  {
    ResolvedClassesAreTheUnion(request, universe, filter, c);
  }

  /**
   * The resolved classes appear in the order of their first occurrence among
   * the root scans, then the package scans, then the selected classes.
   */
  lemma ResolvedClassesInFirstOccurrenceOrder(request: EngineDiscoveryRequest, universe: ClassUniverse,
                                              filter: ClassFilter)
    ensures var candidates := Candidates(request, universe, filter);
      var resolved := InsertionOrder(candidates);
      forall i, j :: 0 <= i < j < |resolved| ==>
        resolved[i] in candidates && resolved[j] in candidates
        && FirstIndex(candidates, resolved[i]) < FirstIndex(candidates, resolved[j])
  {
    InsertionOrderIsFirstOccurrenceOrder(Candidates(request, universe, filter));
  }
}
