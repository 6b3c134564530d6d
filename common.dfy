/**
 * Values shared by the engine models: error-carrying results, unique ids as
 * sequences of (type, value) segments, the "#k" ordinal segment value, the
 * insertion order of a linked hash set, and the dynamic test executor that
 * descriptors hand their run-time children to.
 */
module Common {

  datatype Option<+T> = None | Some(value: T)

  /** A computation that either yields a value or throws the given exception. */
  datatype Result<+T, +E> = Ok(value: T) | Err(error: E)

  /** What `Preconditions` throws: a PreconditionViolationException and its message. */
  datatype PreconditionViolation = PreconditionViolation(message: string)

  /** The three node types of a test descriptor. */
  datatype DescriptorType = CONTAINER | TEST | CONTAINER_AND_TEST

  /** A Java class, identified by its fully qualified name. */
  datatype JavaClass = JavaClass(name: string)

  // ---------------------------------------------------------------------------
  // Unique ids

  /** One segment of a unique id. */
  datatype Segment = Segment(segmentType: string, value: string)

  /** A unique id is the ordered list of its segments; the engine root is the shortest. */
  type UniqueId = seq<Segment>

  /** `UniqueId.append`: a new id one segment deeper; dropping that segment gives back the parent. */
  function Append(id: UniqueId, segmentType: string, value: string): (r: UniqueId)
    ensures |r| == |id| + 1 && r[..|id|] == id
    ensures r[|id|] == Segment(segmentType, value)
  {
    id + [Segment(segmentType, value)]
  }

  /** True iff `child` is exactly one segment below `parent`. */
  predicate IsDirectChild(parent: UniqueId, child: UniqueId) {
    |child| == |parent| + 1 && child[..|parent|] == parent
  }

  // ---------------------------------------------------------------------------
  // Decimal rendering of the 1-based ordinals ("#1", "#2", ...)

  function DigitChar(d: nat): char
    requires d < 10
  {
    ('0' as int + d) as char
  }

  /** Java's decimal `int` to `String` conversion, for non-negative values. */
  function NatToString(n: nat): (s: string)
    ensures |s| >= 1
    ensures (|s| == 1) == (n < 10)
  {
    if n < 10 then [DigitChar(n)] else NatToString(n / 10) + [DigitChar(n % 10)]
  }

  /** Two different numbers never render to the same decimal string. */
  lemma {:induction false} NatToStringInjective(a: nat, b: nat)
    requires NatToString(a) == NatToString(b)
    ensures a == b
  {
    if a >= 10 && b >= 10 {
      var sa, sb := NatToString(a), NatToString(b);
      assert sa[|sa| - 1] == DigitChar(a % 10) && sb[|sb| - 1] == DigitChar(b % 10);
      assert a % 10 == b % 10;
      assert sa[..|sa| - 1] == NatToString(a / 10);
      assert sb[..|sb| - 1] == NatToString(b / 10);
      NatToStringInjective(a / 10, b / 10);
    }
  }

  /** The segment value `"#" + k` given to the k-th dynamically created child. */
  function Ordinal(k: nat): (s: string)
    ensures |s| >= 2 && s[0] == '#'
  {
    "#" + NatToString(k)
  }

  lemma OrdinalInjective(a: nat, b: nat)
    requires Ordinal(a) == Ordinal(b)
    ensures a == b
  {
    assert Ordinal(a)[1..] == NatToString(a);
    assert Ordinal(b)[1..] == NatToString(b);
    NatToStringInjective(a, b);
  }

  // ---------------------------------------------------------------------------
  // Insertion-ordered sets (LinkedHashSet, and the key order of a LinkedHashMap)

  predicate NoDuplicates<T(==)>(s: seq<T>) {
    forall i, j :: 0 <= i < j < |s| ==> s[i] != s[j]
  }

  /** Adding `x` to a linked hash set held as its iteration order. */
  function LinkedAdd<T(==)>(s: seq<T>, x: T): seq<T> {
    if x in s then s else s + [x]
  }

  /** The iteration order of a linked hash set after adding `xs` one by one to an empty one. */
  function InsertionOrder<T(==)>(xs: seq<T>): seq<T> {
    if xs == [] then [] else LinkedAdd(InsertionOrder(xs[..|xs| - 1]), xs[|xs| - 1])
  }

  /** Index of the first occurrence of `x` in `xs`. */
  function FirstIndex<T(==)>(xs: seq<T>, x: T): (i: nat)
    requires x in xs
    ensures i < |xs| && xs[i] == x
    ensures forall j :: 0 <= j < i ==> xs[j] != x
  {
    if xs[0] == x then 0 else 1 + FirstIndex(xs[1..], x)
  }

  /** The set holds exactly the added elements, each once. */
  lemma {:induction false} InsertionOrderContents<T>(xs: seq<T>)
    ensures forall x :: x in InsertionOrder(xs) <==> x in xs
    ensures NoDuplicates(InsertionOrder(xs))
  {
    if xs != [] {
      var init := xs[..|xs| - 1];
      InsertionOrderContents(init);
      assert xs == init + [xs[|xs| - 1]];
    }
  }

  lemma FirstIndexOfPrefix<T>(xs: seq<T>, n: nat, x: T)
    requires n <= |xs| && x in xs[..n]
    ensures FirstIndex(xs[..n], x) == FirstIndex(xs, x)
  {
    var k := FirstIndex(xs[..n], x);
    assert xs[k] == x;
    assert forall j :: 0 <= j < k ==> xs[j] != x by {
      forall j | 0 <= j < k ensures xs[j] != x { assert xs[j] == xs[..n][j]; }
    }
    assert FirstIndex(xs, x) == k;
  }

  /** Elements iterate in the order of their first insertion. */
  lemma {:induction false} InsertionOrderIsFirstOccurrenceOrder<T>(xs: seq<T>)
    ensures forall x :: x in InsertionOrder(xs) ==> x in xs
    ensures forall i, j :: 0 <= i < j < |InsertionOrder(xs)| ==>
              FirstIndex(xs, InsertionOrder(xs)[i]) < FirstIndex(xs, InsertionOrder(xs)[j])
  {
    InsertionOrderContents(xs);
    if xs != [] {
      var n := |xs| - 1;
      var init := xs[..n];
      var last := xs[n];
      var p := InsertionOrder(init);
      InsertionOrderIsFirstOccurrenceOrder(init);
      InsertionOrderContents(init);
      forall y | y in p ensures FirstIndex(xs, y) == FirstIndex(init, y) && FirstIndex(init, y) < n {
        FirstIndexOfPrefix(xs, n, y);
      }
      if last !in p {
        assert last !in init;
        assert FirstIndex(xs, last) == n;
      }
    }
  }

  // ---------------------------------------------------------------------------
  // The dynamic test executor

  /**
   * The callback a descriptor uses to register and run a child that is only
   * created during its own execution. Running the child is outside this model;
   * the executor records, in order, every descriptor it was handed.
   */
  class DynamicTestExecutor<D> {
    var executed: seq<D>

    constructor ()
      ensures executed == []
    {
      executed := [];
    }

    method Execute(descriptor: D)
      modifies this
      ensures executed == old(executed) + [descriptor]
    {
      executed := executed + [descriptor];
    }
  }
}
