/** The annotation processor that generates HTTP-RMI stub scripts: which root
    elements and which of their methods become stub entries, and the per-class
    model and output request built from them. */
module GenerateRmiScript {
  import opened Elements
  import opened JsModel

  const ServiceMarker := "Service"
  const RemoteMarker := "Remote"
  const LocalMarker := "Local"
  const ScriptExtension := ".js"

  /** Front-to-back search of an annotation list for a simple name in `names`,
      stopping at the first match. */
  function AnnotatedWith(annotations: seq<string>, names: set<string>): (r: bool)
    ensures r <==> exists i :: 0 <= i < |annotations| && annotations[i] in names
  {
    if annotations == [] then false
    else if annotations[0] in names then true
    else
      var tail := annotations[1..];
      assert forall i :: 0 <= i < |tail| ==> tail[i] == annotations[i + 1];
      AnnotatedWith(tail, names)
  }

  /** A private or protected method: not eligible for a stub. */
  predicate IsNotPublic(m: Element)
  {
    Private in m.modifiers || Protected in m.modifiers
  }

  /** A class or method carries a remote marker, matched by simple name only. */
  function IsRemote(e: Element): (r: bool)
    ensures r <==> exists i :: 0 <= i < |e.annotations| && (e.annotations[i] == ServiceMarker || e.annotations[i] == RemoteMarker)
  {
    AnnotatedWith(e.annotations, {ServiceMarker, RemoteMarker})
  }

  /** A class or method carries the local-only marker, matched by simple name only. */
  function IsLocal(e: Element): (r: bool)
    ensures r <==> exists i :: 0 <= i < |e.annotations| && e.annotations[i] == LocalMarker
  {
    AnnotatedWith(e.annotations, {LocalMarker})
  }

  /** The filter the inner loop of the processor applies to an enclosed element,
      given whether the owning type is remote. */
  predicate Collected(remoteType: bool, m: Element)
  {
    m.kind == Method && !IsNotPublic(m) && !IsLocal(m) && (remoteType || IsRemote(m))
  }

  /** The stub entry extracted from a method declaration. */
  function Signature(m: Element): (r: JsMethod)
  {
    JsMethod(m.simpleName, m.returnType, m.parameters, m.thrownTypes)
  }

  /** The stub entries of the collected members, in declaration order. */
  function CollectMethods(remoteType: bool, members: seq<Element>): (r: seq<JsMethod>)
    ensures |r| <= |members|
    decreases |members|
  {
    if members == [] then []
    else
      var last := members[|members| - 1];
      CollectMethods(remoteType, members[..|members| - 1])
        + (if Collected(remoteType, last) then [Signature(last)] else [])
  }

  /** The declaration positions of the collected members, in ascending order. */
  ghost function CollectedIndices(remoteType: bool, members: seq<Element>): (r: seq<nat>)
    ensures forall k :: 0 <= k < |r| ==> r[k] < |members|
    decreases |members|
  {
    if members == [] then []
    else
      var n := |members| - 1;
      CollectedIndices(remoteType, members[..n]) + (if Collected(remoteType, members[n]) then [n] else [])
  }

  /** The model the processor builds for a type element. */
  function ClassModel(e: Element): (r: JsClass)
  {
    JsClass(e.qualifiedName, CollectMethods(IsRemote(e), e.enclosed))
  }

  /** The positions, among the enclosed elements of `e`, of the methods that
      become stub entries. */
  ghost function SelectedPositions(e: Element): (r: seq<nat>)
  {
    CollectedIndices(IsRemote(e), e.enclosed)
  }

  /** What one root element contributes to the output: nothing for a non-type
      or for a type without collected methods, otherwise one script request
      whose file name is `className` of the qualified name followed by `.js`.
      `className` and `packageName` stand for the serializer library's split
      of a qualified name. */
  function RootArtifacts(e: Element, className: string -> string, packageName: string -> string): (r: seq<Artifact>)
    ensures |r| <= 1
    ensures |r| == 1 <==> IsTypeKind(e.kind) && ClassModel(e).HasMethods()
    ensures forall a :: a in r ==>
      a.origin == e && a.model == ClassModel(e)
      && a.fileName == className(e.qualifiedName) + ScriptExtension
      && a.packageName == packageName(e.qualifiedName)
  {
    if !IsTypeKind(e.kind) then []
    else
      var model := ClassModel(e);
      if !model.HasMethods() then []
      else [Artifact(packageName(model.qualifiedClassName), className(model.qualifiedClassName) + ScriptExtension, e, model)]
  }

  /** The script requests of a processing round, root element by root element. */
  function Artifacts(roots: seq<Element>, className: string -> string, packageName: string -> string): (r: seq<Artifact>)
    decreases |roots|
  {
    if roots == [] then []
    else
      Artifacts(roots[..|roots| - 1], className, packageName)
        + RootArtifacts(roots[|roots| - 1], className, packageName)
  }

  /** Signature extraction: a new method model gets its name and return type set, then one
      parameter and one exception type appended per declared one. */
  method ExtractSignature(m: Element) returns (jsMethod: JsMethod)
    ensures jsMethod.methodName == m.simpleName
    ensures jsMethod.returnType == m.returnType
    ensures jsMethod.parameters == m.parameters
    ensures jsMethod.exceptionTypes == m.thrownTypes
  {
    jsMethod := NewJsMethod;
    jsMethod := jsMethod.(methodName := m.simpleName);
    jsMethod := jsMethod.(returnType := m.returnType);
    for k := 0 to |m.parameters|
      invariant jsMethod.methodName == m.simpleName && jsMethod.returnType == m.returnType
      invariant jsMethod.parameters == m.parameters[..k]
      invariant jsMethod.exceptionTypes == []
    {
      var parameter := m.parameters[k];
      jsMethod := jsMethod.AddParameter(parameter.typeName, parameter.name);
    }
    for k := 0 to |m.thrownTypes|
      invariant jsMethod.methodName == m.simpleName && jsMethod.returnType == m.returnType
      invariant jsMethod.parameters == m.parameters
      invariant jsMethod.exceptionTypes == m.thrownTypes[..k]
    {
      jsMethod := jsMethod.AddExceptionType(m.thrownTypes[k]);
    }
  }

  /** One processing round over the root elements. Every request to write a
      script is returned in `emitted`, in the order the round issues them; the
      round always claims its annotations. */
  method Process(roots: seq<Element>, className: string -> string, packageName: string -> string)
    returns (claimed: bool, emitted: seq<Artifact>)
    ensures claimed
    ensures emitted == Artifacts(roots, className, packageName)
  {
    emitted := [];
    for i := 0 to |roots|
      invariant emitted == Artifacts(roots[..i], className, packageName)
    {
      var element := roots[i];
      assert roots[..i + 1][..i] == roots[..i];
      if element.kind != Interface && element.kind != Class {
        continue;
      }
      var remoteType := IsRemote(element);
      var jsClass := JsClass(element.qualifiedName, []);
      for j := 0 to |element.enclosed|
        invariant jsClass == JsClass(element.qualifiedName, CollectMethods(remoteType, element.enclosed[..j]))
      {
        var innerElement := element.enclosed[j];
        assert element.enclosed[..j + 1][..j] == element.enclosed[..j];
        if innerElement.kind != Method {
          continue;
        }
        if IsNotPublic(innerElement) {
          continue;
        }
        if IsLocal(innerElement) {
          continue;
        }
        if !remoteType && !IsRemote(innerElement) {
          continue;
        }
        var jsMethod := ExtractSignature(innerElement);
        jsClass := jsClass.AddMethod(jsMethod);
      }
      assert element.enclosed[..|element.enclosed|] == element.enclosed;
      if !jsClass.HasMethods() {
        continue;
      }
      var fileName := className(jsClass.qualifiedClassName) + ScriptExtension;
      emitted := emitted + [Artifact(packageName(jsClass.qualifiedClassName), fileName, element, jsClass)];
    }
    assert roots[..|roots|] == roots;
    claimed := true;
  }
}
