/**
 * `DynamicContainerTestDescriptor`: the descriptor of a `DynamicContainer`
 * produced at run time by a test factory. Executing it walks the container's
 * stream of child nodes, numbering them from 1 and handing each translated
 * child to the dynamic test executor before the next one is pulled.
 */
module DynamicContainers {
  import opened Common

  const NULL_NODE_MESSAGE := "individual dynamic node must not be null"

  /** Where a test is declared; `null` is `None`. */
  datatype TestSource = TestSource(location: string)

  /**
   * A node of a dynamic test tree. A container's stream of children is the
   * finite sequence it emits, with `None` standing for a `null` element.
   */
  datatype DynamicNode =
    | DynamicTest(displayName: string)
    | DynamicContainer(displayName: string, children: seq<Option<DynamicNode>>)

  /**
   * What `createDynamicDescriptor(this, child, index, testSource)` is given:
   * the parent's id, the child's index, the child node and the test source.
   */
  datatype DynamicDescriptor =
    DynamicDescriptor(parentId: UniqueId, index: nat, node: DynamicNode, source: Option<TestSource>)

  /** `SkipResult`: whether to skip, and why. */
  datatype SkipResult = SkipResult(skipped: bool, reason: Option<string>)

  /** Position of the first `null` in the stream, or its length when there is none. */
  function FirstNull(children: seq<Option<DynamicNode>>): (n: nat)
    ensures n <= |children|
    ensures forall i :: 0 <= i < n ==> children[i].Some?
    ensures n < |children| ==> children[n].None?
  {
    if children == [] || children[0].None? then 0 else 1 + FirstNull(children[1..])
  }

  /** The node a container descriptor is made for: always a `DynamicContainer`. */
  type ContainerNode = n: DynamicNode | n.DynamicContainer? witness DynamicContainer("", [])

  datatype DynamicContainerTestDescriptor =
    DynamicContainerTestDescriptor(uniqueId: UniqueId, dynamicContainer: ContainerNode, testSource: Option<TestSource>)
  {
    /** A dynamic container is a container. */
    function GetType(): (t: DescriptorType)
      ensures t == CONTAINER
    {
      CONTAINER
    }

    /** `SkipResult.doNotSkip()`: a dynamic container is never skipped. */
    function ShouldBeSkipped(): (r: SkipResult)
      ensures !r.skipped && r.reason == None
    {
      SkipResult(false, None)
    }

    /** `toDynamicDescriptor`: the child keeps this container's test source. */
    function ToDynamicDescriptor(index: nat, childNode: DynamicNode): (d: DynamicDescriptor)
      ensures d.parentId == uniqueId && d.index == index && d.node == childNode && d.source == testSource
    {
      DynamicDescriptor(uniqueId, index, childNode, testSource)
    }

    /**
     * `execute`: the children before the first `null` are translated with
     * indices 1, 2, ... and executed in stream order; a `null` child then fails
     * the container, after those before it have run. On success the given
     * context is returned unchanged.
     */
    method Execute<C>(context: C, executor: DynamicTestExecutor<DynamicDescriptor>)
      returns (r: Result<C, PreconditionViolation>)
      modifies executor
      ensures var n := FirstNull(dynamicContainer.children);
        && |executor.executed| == |old(executor.executed)| + n
        && executor.executed[..|old(executor.executed)|] == old(executor.executed)
        && (forall i :: 0 <= i < n ==>
              executor.executed[|old(executor.executed)| + i]
                == DynamicDescriptor(uniqueId, i + 1, dynamicContainer.children[i].value, testSource))
        && (r.Err? <==> n < |dynamicContainer.children|)
        && (r.Err? ==> r.error == PreconditionViolation(NULL_NODE_MESSAGE))
        && (r.Ok? ==> r.value == context)
    {
      var children := dynamicContainer.children;
      var index := 1;
      var k := 0;
      while k < |children|
        invariant 0 <= k <= FirstNull(children)
        invariant index == k + 1
        invariant |executor.executed| == |old(executor.executed)| + k
        invariant executor.executed[..|old(executor.executed)|] == old(executor.executed)
        invariant forall i :: 0 <= i < k ==>
                    executor.executed[|old(executor.executed)| + i]
                      == DynamicDescriptor(uniqueId, i + 1, children[i].value, testSource)
      {
        var child := children[k];
        if child.None? {
          return Err(PreconditionViolation(NULL_NODE_MESSAGE));
        }
        var descriptor := ToDynamicDescriptor(index, child.value);
        index := index + 1;
        executor.Execute(descriptor);
        k := k + 1;
      }
      return Ok(context);
    }
  }
}
