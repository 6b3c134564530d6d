/**
 * `TestTemplateTestDescriptor`: the container for a `@TestTemplate` method.
 * At execution it asks the registered invocation-context providers that
 * support the template for their contexts, and turns each context into a
 * child descriptor that it attaches and hands to the dynamic test executor.
 */
module TestTemplates {
  import opened Common

  /** `TestTemplateInvocationTestDescriptor.SEGMENT_TYPE`. */
  const SEGMENT_TYPE := "test-template-invocation"

  const NO_CONTEXT_MESSAGE := "No supporting TestTemplateInvocationContextProvider provided an invocation context"

  function NoProviderMessage(testMethod: string): string {
    "You must register at least one TestTemplateInvocationContextProvider that supports @TestTemplate method ["
      + testMethod + "]"
  }

  /** One invocation of the template, as a provider hands it out. */
  datatype InvocationContext = InvocationContext(displayName: string)

  /**
   * A `TestTemplateInvocationContextProvider` from the extension registry, as it
   * answers for this template's extension context: whether it supports the
   * template, and the contexts its stream emits, in emission order.
   */
  datatype Provider = Provider(supportsTemplate: bool, contexts: seq<InvocationContext>)

  /**
   * A `TestTemplateInvocationTestDescriptor`: its id, its 1-based invocation
   * index, its invocation context and its parent (set by `addChild`).
   */
  datatype InvocationDescriptor =
    InvocationDescriptor(uniqueId: UniqueId, index: nat, invocationContext: InvocationContext, parent: Option<UniqueId>)

  /** The providers that support the template, in registry order. */
  function Supporting(providers: seq<Provider>): (r: seq<Provider>)
    ensures forall p :: p in r <==> p in providers && p.supportsTemplate
  {
    if providers == [] then []
    else if providers[0].supportsTemplate then [providers[0]] + Supporting(providers[1..])
    else Supporting(providers[1..])
  }

  /**
   * `filter` keeps registry order and multiplicity: the supporting providers of
   * a list split in two are those of the first part followed by those of the
   * second, and a single provider is kept exactly when it supports the template.
   */
  lemma {:induction false} SupportingAppend(a: seq<Provider>, b: seq<Provider>)
    ensures Supporting(a + b) == Supporting(a) + Supporting(b)
    ensures |a| == 1 ==> Supporting(a) == (if a[0].supportsTemplate then a else [])
  {
    if a == [] {
      assert a + b == b;
    } else {
      assert (a + b)[1..] == a[1..] + b;
      SupportingAppend(a[1..], b);
      assert |a| == 1 ==> a[1..] == [];
    }
  }

  /** `flatMap` over the providers' context streams: provider order first, then emission order. */
  function AllContexts(providers: seq<Provider>): seq<InvocationContext> {
    if providers == [] then [] else providers[0].contexts + AllContexts(providers[1..])
  }

  /** The id of the k-th invocation: the parent's id plus one `#k` segment. */
  function InvocationId(parentId: UniqueId, k: nat): UniqueId {
    Append(parentId, SEGMENT_TYPE, Ordinal(k))
  }

  /** The attached descriptors for `contexts`, numbered from 1. */
  function Invocations(parentId: UniqueId, contexts: seq<InvocationContext>): seq<InvocationDescriptor> {
    seq(|contexts|, i requires 0 <= i < |contexts| =>
      InvocationDescriptor(InvocationId(parentId, i + 1), i + 1, contexts[i], Some(parentId)))
  }

  lemma InvocationsAppend(parentId: UniqueId, contexts: seq<InvocationContext>, c: InvocationContext)
    ensures Invocations(parentId, contexts + [c])
         == Invocations(parentId, contexts)
            + [InvocationDescriptor(InvocationId(parentId, |contexts| + 1), |contexts| + 1, c, Some(parentId))]
  {
  }

  /** The invocations of a longer list extend those of its prefix. */
  lemma InvocationsExtend(parentId: UniqueId, contexts: seq<InvocationContext>, more: seq<InvocationContext>)
    ensures Invocations(parentId, contexts) + Invocations(parentId, contexts + more)[|contexts|..]
         == Invocations(parentId, contexts + more)
  {
    var all := Invocations(parentId, contexts + more);
    assert all[..|contexts|] == Invocations(parentId, contexts);
    assert all[..|contexts|] + all[|contexts|..] == all;
  }

  /** The invocations made for provider i continue those of the providers before it. */
  lemma NextProviderInvocations(parentId: UniqueId, providers: seq<Provider>, i: nat)
    requires i < |providers|
    ensures var before := AllContexts(providers[..i]);
      && before + providers[i].contexts == AllContexts(providers[..i + 1])
      && Invocations(parentId, before) + Invocations(parentId, before + providers[i].contexts)[|before|..]
         == Invocations(parentId, AllContexts(providers[..i + 1]))
  {
    assert providers[..i + 1] == providers[..i] + [providers[i]];
    AllContextsAppend(providers[..i], providers[i]);
    InvocationsExtend(parentId, AllContexts(providers[..i]), providers[i].contexts);
  }

  lemma {:induction false} AllContextsAppend(providers: seq<Provider>, p: Provider)
    ensures AllContexts(providers + [p]) == AllContexts(providers) + p.contexts
  {
    if providers != [] {
      assert (providers + [p])[1..] == providers[1..] + [p];
      AllContextsAppend(providers[1..], p);
    } else {
      assert [p][1..] == [];
    }
  }

  /**
   * The k-th invocation across all providers is context `c` of provider `p`,
   * where k counts every context of the providers before `p`, then the
   * contexts `p` emitted before `c`; its id is the parent id plus `#k`.
   */
  lemma {:induction false} InvocationNumbering(parentId: UniqueId, providers: seq<Provider>, p: nat, c: nat)
    requires p < |providers| && c < |providers[p].contexts|
    ensures var k := |AllContexts(providers[..p])| + c + 1;
      var all := Invocations(parentId, AllContexts(providers));
      && k <= |all|
      && all[k - 1] == InvocationDescriptor(InvocationId(parentId, k), k, providers[p].contexts[c], Some(parentId))
  {
    if p == 0 {
      assert providers[..0] == [];
    } else {
      InvocationNumbering(parentId, providers[1..], p - 1, c);
      assert providers[1..][..p - 1] == providers[..p][1..];
      assert providers[1..][p - 1] == providers[p];
    }
  }

  /**
   * Every invocation id is a direct child of the template's id, and no two
   * invocations share an id.
   */
  lemma InvocationIdsUnique(parentId: UniqueId, contexts: seq<InvocationContext>)
    ensures forall d :: d in Invocations(parentId, contexts) ==> IsDirectChild(parentId, d.uniqueId)
    ensures forall i, j :: 0 <= i < j < |contexts| ==>
              Invocations(parentId, contexts)[i].uniqueId != Invocations(parentId, contexts)[j].uniqueId
  {
    var all := Invocations(parentId, contexts);
    forall i, j | 0 <= i < j < |contexts| ensures all[i].uniqueId != all[j].uniqueId {
      if all[i].uniqueId == all[j].uniqueId {
        assert all[i].uniqueId[|parentId|] == Segment(SEGMENT_TYPE, Ordinal(i + 1));
        OrdinalInjective(i + 1, j + 1);
      }
    }
  }

  class TestTemplateTestDescriptor {
    const uniqueId: UniqueId
    /** The template method, as `getTestMethod()` prints it. */
    const testMethod: string
    var children: seq<InvocationDescriptor>

    constructor (uniqueId: UniqueId, testMethod: string)
      ensures this.uniqueId == uniqueId && this.testMethod == testMethod && children == []
    {
      this.uniqueId := uniqueId;
      this.testMethod := testMethod;
      children := [];
    }

    /** A template is a container: its invocations are the tests. */
    function GetType(): (t: DescriptorType)
      ensures t == CONTAINER
    {
      CONTAINER
    }

    /** A template registers its invocations at execution time. */
    function MayRegisterTests(): (b: bool)
      ensures b
    {
      true
    }

    /** Keeps the supporting providers; `Preconditions.notEmpty` fails when there are none. */
    function ValidateProviders(providers: seq<Provider>): (r: Result<seq<Provider>, PreconditionViolation>)
      ensures r.Ok? <==> exists p :: p in providers && p.supportsTemplate
      ensures r.Ok? ==> r.value == Supporting(providers)
      ensures r.Err? ==> r.error == PreconditionViolation(NoProviderMessage(testMethod))
    {
      var supporting := Supporting(providers);
      if supporting == [] then Err(PreconditionViolation(NoProviderMessage(testMethod)))
      else
        assert supporting[0] in supporting;
        Ok(supporting)
    }

    /** A new, not yet attached descriptor for the invocation numbered `index`. */
    function CreateInvocationTestDescriptor(invocationContext: InvocationContext, index: nat): (d: InvocationDescriptor)
      ensures IsDirectChild(uniqueId, d.uniqueId)
      ensures d.uniqueId[|uniqueId|] == Segment(SEGMENT_TYPE, "#" + NatToString(index))
      ensures d.index == index && d.invocationContext == invocationContext && d.parent == None
    {
      InvocationDescriptor(InvocationId(uniqueId, index), index, invocationContext, None)
    }

    /** `addChild`: sets the child's parent to this descriptor and appends it to the children. */
    method AddChild(child: InvocationDescriptor) returns (attached: InvocationDescriptor)
      modifies this
      ensures attached == child.(parent := Some(uniqueId))
      ensures children == old(children) + [attached]
    {
      attached := child.(parent := Some(uniqueId));
      children := children + [attached];
    }

    /** The private `execute(DynamicTestExecutor, TestDescriptor)`: attach first, then hand over. */
    method ExecuteInvocation(executor: DynamicTestExecutor<InvocationDescriptor>, descriptor: InvocationDescriptor)
      modifies this, executor
      ensures children == old(children) + [descriptor.(parent := Some(uniqueId))]
      ensures executor.executed == old(executor.executed) + [descriptor.(parent := Some(uniqueId))]
    {
      var attached := AddChild(descriptor);
      executor.Execute(attached);
    }

    /**
     * The `forEach` over one supporting provider's contexts: each gets the next
     * invocation number and is attached and executed before the next one.
     */
    method ExecuteContexts(executor: DynamicTestExecutor<InvocationDescriptor>, ghost before: seq<InvocationContext>,
                           contexts: seq<InvocationContext>, invocationIndex: nat)
      returns (next: nat)
      requires invocationIndex == |before|
      modifies this, executor
      ensures next == |before + contexts|
      ensures children == old(children) + Invocations(uniqueId, before + contexts)[|before|..]
      ensures executor.executed == old(executor.executed) + Invocations(uniqueId, before + contexts)[|before|..]
    {
      next := invocationIndex;
      var j := 0;
      while j < |contexts|
        invariant 0 <= j <= |contexts|
        invariant next == |before| + j
        invariant children == old(children) + Invocations(uniqueId, before + contexts[..j])[|before|..]
        invariant executor.executed == old(executor.executed) + Invocations(uniqueId, before + contexts[..j])[|before|..]
      {
        next := next + 1;
        var descriptor := CreateInvocationTestDescriptor(contexts[j], next);
        ExecuteInvocation(executor, descriptor);
        InvocationsAppend(uniqueId, before + contexts[..j], contexts[j]);
        assert before + contexts[..j + 1] == (before + contexts[..j]) + [contexts[j]];
        j := j + 1;
      }
      assert contexts[..j] == contexts;
    }

    /**
     * The stream pipeline of `execute`: the contexts of every provider, in
     * provider order and then emission order, numbered from 1 by the shared
     * counter, each attached and executed; the counter ends at their number.
     */
    method ExecuteProviders(executor: DynamicTestExecutor<InvocationDescriptor>, providers: seq<Provider>)
      returns (invocationIndex: nat)
      modifies this, executor
      ensures invocationIndex == |AllContexts(providers)|
      ensures children == old(children) + Invocations(uniqueId, AllContexts(providers))
      ensures executor.executed == old(executor.executed) + Invocations(uniqueId, AllContexts(providers))
    {
      invocationIndex := 0;
      var i := 0;
      while i < |providers|
        invariant 0 <= i <= |providers|
        invariant invocationIndex == |AllContexts(providers[..i])|
        invariant children == old(children) + Invocations(uniqueId, AllContexts(providers[..i]))
        invariant executor.executed == old(executor.executed) + Invocations(uniqueId, AllContexts(providers[..i]))
      {
        invocationIndex := ExecuteContexts(executor, AllContexts(providers[..i]), providers[i].contexts, invocationIndex);
        NextProviderInvocations(uniqueId, providers, i);
        i := i + 1;
      }
      assert providers[..i] == providers;
    }

    /**
     * `execute`: fails before creating any child when no provider supports the
     * template; otherwise numbers every context of the supporting providers
     * from 1, attaches and executes one child per context in that order, and
     * fails at the end when there was no context at all.
     */
    method Execute<C>(context: C, providers: seq<Provider>, executor: DynamicTestExecutor<InvocationDescriptor>)
      returns (r: Result<C, PreconditionViolation>)
      modifies this, executor
      ensures Supporting(providers) == [] ==>
                && r == Err(PreconditionViolation(NoProviderMessage(testMethod)))
                && children == old(children)
                && executor.executed == old(executor.executed)
      ensures Supporting(providers) != [] ==>
                var made := Invocations(uniqueId, AllContexts(Supporting(providers)));
                && children == old(children) + made
                && executor.executed == old(executor.executed) + made
                && r == (if made == [] then Err(PreconditionViolation(NO_CONTEXT_MESSAGE)) else Ok(context))
    {
      var validated := ValidateProviders(providers);
      if validated.Err? {
        return Err(validated.error);
      }
      var invocationIndex := ExecuteProviders(executor, validated.value);
      if invocationIndex == 0 {
        return Err(PreconditionViolation(NO_CONTEXT_MESSAGE));
      }
      return Ok(context);
    }
  }
}
