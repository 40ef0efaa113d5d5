/** What the processor promises about the stubs it generates: which members are
    collected, in which order, and which root elements produce a script. */
module RmiProperties {
  import opened Elements
  import opened JsModel
  import opened GenerateRmiScript

  predicate StrictlyIncreasing(s: seq<nat>)
  {
    forall j, k :: 0 <= j < k < |s| ==> s[j] < s[k]
  }

  /** The collected positions are exactly the members that pass the filter, in
      ascending order. */
  lemma {:induction false} CollectedIndicesExact(remoteType: bool, members: seq<Element>)
    ensures StrictlyIncreasing(CollectedIndices(remoteType, members))
    ensures forall i :: 0 <= i < |members| ==>
      (i in CollectedIndices(remoteType, members) <==> Collected(remoteType, members[i]))
    decreases |members|
  {
    if members != [] {
      var n := |members| - 1;
      var prefix := members[..n];
      CollectedIndicesExact(remoteType, prefix);
      assert forall i :: 0 <= i < n ==> members[i] == prefix[i];
    }
  }

  /** The k-th stub entry is the signature of the member at the k-th collected
      position. */
  lemma {:induction false} CollectMethodsAt(remoteType: bool, members: seq<Element>)
    ensures |CollectMethods(remoteType, members)| == |CollectedIndices(remoteType, members)|
    ensures forall k :: 0 <= k < |CollectMethods(remoteType, members)| ==>
      CollectMethods(remoteType, members)[k] == Signature(members[CollectedIndices(remoteType, members)[k]])
    decreases |members|
  {
    if members != [] {
      var n := |members| - 1;
      var prefix := members[..n];
      CollectMethodsAt(remoteType, prefix);
      assert forall i :: 0 <= i < n ==> members[i] == prefix[i];
    }
  }

  /** A member is collected exactly when the four checks of the inner loop let
      it through. */
  lemma MemberSelection(e: Element, i: nat)
    requires i < |e.enclosed|
    ensures i in SelectedPositions(e) <==>
      e.enclosed[i].kind == Method
      && Private !in e.enclosed[i].modifiers && Protected !in e.enclosed[i].modifiers
      && LocalMarker !in e.enclosed[i].annotations
      && (IsRemote(e) || ServiceMarker in e.enclosed[i].annotations || RemoteMarker in e.enclosed[i].annotations)
  {
    CollectedIndicesExact(IsRemote(e), e.enclosed);
  }

  /** Fields, constructors and nested types are never collected. */
  lemma NonMethodNeverCollected(e: Element, i: nat)
    requires i < |e.enclosed| && e.enclosed[i].kind != Method
    ensures i !in SelectedPositions(e)
  {
    MemberSelection(e, i);
  }

  /** A private or protected method is never collected, whatever the annotations
      of the method or of its type. */
  lemma NonPublicNeverCollected(e: Element, i: nat)
    requires i < |e.enclosed|
    requires Private in e.enclosed[i].modifiers || Protected in e.enclosed[i].modifiers
    ensures i !in SelectedPositions(e)
  {
    MemberSelection(e, i);
  }

  /** The local-only marker wins over every remote marker, on the method and on
      its type. */
  lemma LocalOverridesRemote(e: Element, i: nat)
    requires i < |e.enclosed| && LocalMarker in e.enclosed[i].annotations
    ensures i !in SelectedPositions(e)
  {
    MemberSelection(e, i);
  }

  /** On a type without a remote marker only methods that carry one themselves,
      and pass the other checks, are collected. */
  lemma NonRemoteTypeKeepsRemoteMethods(e: Element, i: nat)
    requires i < |e.enclosed|
    requires ServiceMarker !in e.annotations && RemoteMarker !in e.annotations
    ensures i in SelectedPositions(e) <==>
      e.enclosed[i].kind == Method
      && Private !in e.enclosed[i].modifiers && Protected !in e.enclosed[i].modifiers
      && LocalMarker !in e.enclosed[i].annotations
      && (ServiceMarker in e.enclosed[i].annotations || RemoteMarker in e.enclosed[i].annotations)
  {
    MemberSelection(e, i);
  }

  /** On a remote type every method that is neither private, protected nor
      local-only is collected, whatever its own annotations. */
  lemma RemoteTypeKeepsEveryEligibleMethod(e: Element, i: nat)
    requires i < |e.enclosed|
    requires ServiceMarker in e.annotations || RemoteMarker in e.annotations
    ensures i in SelectedPositions(e) <==>
      e.enclosed[i].kind == Method
      && Private !in e.enclosed[i].modifiers && Protected !in e.enclosed[i].modifiers
      && LocalMarker !in e.enclosed[i].annotations
  {
    MemberSelection(e, i);
  }

  /** The stub entries of a class follow the declaration order of the collected
      methods, each a verbatim copy of its method's name, return type,
      parameters and thrown types. */
  lemma ClassModelInDeclarationOrder(e: Element)
    ensures ClassModel(e).qualifiedClassName == e.qualifiedName
    ensures StrictlyIncreasing(SelectedPositions(e))
    ensures |ClassModel(e).methods| == |SelectedPositions(e)|
    ensures forall k :: 0 <= k < |ClassModel(e).methods| ==>
      var m := e.enclosed[SelectedPositions(e)[k]];
      ClassModel(e).methods[k] == JsMethod(m.simpleName, m.returnType, m.parameters, m.thrownTypes)
  {
    CollectedIndicesExact(IsRemote(e), e.enclosed);
    CollectMethodsAt(IsRemote(e), e.enclosed);
  }

  /** Members none of which passes the filter yield no stub entry. */
  lemma {:induction false} NothingCollected(remoteType: bool, members: seq<Element>)
    requires forall i :: 0 <= i < |members| ==> !Collected(remoteType, members[i])
    ensures CollectMethods(remoteType, members) == []
    decreases |members|
  {
    if members != [] {
      var n := |members| - 1;
      assert forall i :: 0 <= i < n ==> members[..n][i] == members[i];
      NothingCollected(remoteType, members[..n]);
    }
  }

  /** A type with no remote marker on itself or on any member yields an empty
      model and no script. */
  lemma UnmarkedTypeYieldsNothing(e: Element, className: string -> string, packageName: string -> string)
    requires ServiceMarker !in e.annotations && RemoteMarker !in e.annotations
    requires forall m :: m in e.enclosed ==> ServiceMarker !in m.annotations && RemoteMarker !in m.annotations
    ensures ClassModel(e).methods == []
    ensures RootArtifacts(e, className, packageName) == []
  {
    forall i | 0 <= i < |e.enclosed|
      ensures !Collected(IsRemote(e), e.enclosed[i])
    {
      assert e.enclosed[i] in e.enclosed;
    }
    NothingCollected(IsRemote(e), e.enclosed);
  }

  /** The requests of two consecutive runs of root elements are those of each,
      in order. */
  lemma {:induction false} ArtifactsAppend(a: seq<Element>, b: seq<Element>, className: string -> string, packageName: string -> string)
    ensures Artifacts(a + b, className, packageName) == Artifacts(a, className, packageName) + Artifacts(b, className, packageName)
    decreases |b|
  {
    if b == [] {
      assert a + b == a;
    } else {
      var n := |b| - 1;
      ArtifactsAppend(a, b[..n], className, packageName);
      assert (a + b)[..|a + b| - 1] == a + b[..n];
      assert (a + b)[|a + b| - 1] == b[n];
    }
  }

  /** A root element that is neither an interface nor a class contributes no
      request, wherever it stands. */
  lemma NonTypeRootContributesNothing(before: seq<Element>, e: Element, after: seq<Element>,
                                      className: string -> string, packageName: string -> string)
    requires !IsTypeKind(e.kind)
    ensures Artifacts(before + [e] + after, className, packageName) == Artifacts(before + after, className, packageName)
  {
    ArtifactsAppend(before + [e], after, className, packageName);
    ArtifactsAppend(before, [e], className, packageName);
    ArtifactsAppend(before, after, className, packageName);
    assert Artifacts([e], className, packageName) == [] by {
      assert [e][..0] == [];
    }
  }

  /** Every request stems from an interface or class root element with a
      non-empty model, is named after its class and carries that model. */
  lemma {:induction false} ArtifactsSound(roots: seq<Element>, className: string -> string, packageName: string -> string)
    ensures forall a :: a in Artifacts(roots, className, packageName) ==>
      a.origin in roots && IsTypeKind(a.origin.kind)
      && a.model == ClassModel(a.origin) && a.model.methods != []
      && a.fileName == className(a.origin.qualifiedName) + ScriptExtension
      && a.packageName == packageName(a.origin.qualifiedName)
    decreases |roots|
  {
    if roots != [] {
      ArtifactsSound(roots[..|roots| - 1], className, packageName);
      forall a | a in Artifacts(roots[..|roots| - 1], className, packageName)
        ensures a.origin in roots
      {
        assert a.origin in roots[..|roots| - 1];
      }
    }
  }

  /** Every interface or class root element with a non-empty model has its
      request issued. */
  lemma {:induction false} ArtifactsComplete(roots: seq<Element>, className: string -> string, packageName: string -> string)
    ensures forall i :: 0 <= i < |roots| && IsTypeKind(roots[i].kind) && ClassModel(roots[i]).methods != [] ==>
      Artifact(packageName(roots[i].qualifiedName), className(roots[i].qualifiedName) + ScriptExtension, roots[i], ClassModel(roots[i]))
        in Artifacts(roots, className, packageName)
    decreases |roots|
  {
    if roots != [] {
      var n := |roots| - 1;
      ArtifactsComplete(roots[..n], className, packageName);
      assert forall i :: 0 <= i < n ==> roots[i] == roots[..n][i];
    }
  }

  /** The number of interface and class root elements. */
  function TypeCount(roots: seq<Element>): (r: nat)
    decreases |roots|
  {
    if roots == [] then 0
    else TypeCount(roots[..|roots| - 1]) + (if IsTypeKind(roots[|roots| - 1].kind) then 1 else 0)
  }

  /** At most one request per interface or class root element. */
  lemma {:induction false} ArtifactCountBound(roots: seq<Element>, className: string -> string, packageName: string -> string)
    ensures |Artifacts(roots, className, packageName)| <= TypeCount(roots)
    decreases |roots|
  {
    if roots != [] {
      ArtifactCountBound(roots[..|roots| - 1], className, packageName);
    }
  }
}
