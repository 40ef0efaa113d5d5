# HTTP-RMI stub script generator — a Dafny model

This project models the core of `GenerateRmiScript`, the annotation processor
that inspects the interfaces and classes of a compilation round and, for each
one that exposes remote methods, asks the host to write a client stub script
`<ClassName>.js`. The model covers the selection rule and the stub model:

- which root elements are looked at (interfaces and classes only);
- when a type is remote (an annotation whose simple name is `Service` or
  `Remote`) and when a method is local-only (simple name `Local`);
- which enclosed elements become stub entries: methods that are neither
  private nor protected, not local-only, and remote themselves unless their
  type is;
- the signature copied into each entry (name, return type, parameters,
  thrown types, all in declaration order);
- the per-class model (qualified name plus an ordered list of entries) and
  the one write request issued per type whose model is not empty.

Files:

- `elements.dfy` (module `Elements`): the declarations the compiler hands
  over, as one record datatype `Element` with a kind, a modifier set, the
  annotation simple names, and the method-specific parts. Type mirrors are
  the strings their `toString()` renders.
- `js_model.dfy` (module `JsModel`): `JsMethod` and `JsClass` as plain
  records whose builder operations append, and `Artifact`, one request to
  write a script.
- `generate_rmi_script.dfy` (module `GenerateRmiScript`): the helpers
  `AnnotatedWith` (the early-return annotation scan), `IsNotPublic`,
  `IsRemote` and `IsLocal`; the specification functions listed below; the
  method `ExtractSignature`, which builds one stub entry by appending
  parameters and exception types; and the method `Process` with its nested
  loops and `continue`s, proved to return exactly `Artifacts(roots, ...)`.
- `rmi_properties.dfy` (module `RmiProperties`): the lemmas about the
  specification functions.
- `rmi_scenarios.dfy` (module `RmiScenarios`): two example declarations as
  concrete lemmas. The first is a remote interface with `bar`, private `baz`
  and local-only `qux`. The second is a class with a `Service` method
  `hello` and a plain `world`.

The specification functions are plain definitions without contracts of
their own. What they mean is stated by the lemmas in the table below, so
they have no rows:

- `IsNotPublic` (GenerateRmiScript.java:142-144): the modifiers contain
  `Private` or `Protected`. It is stated by `NonPublicNeverCollected` and
  `MemberSelection`.
- `Collected` (lines 73-85): the four `continue` tests of the inner loop,
  given whether the owning type is remote. It is stated by
  `CollectedIndicesExact`, `MemberSelection` and the lemmas that follow
  from `MemberSelection`.
- `Signature` (lines 87-98): the entry built from a method, with its name,
  return type, parameters and thrown types. It is stated by
  `ExtractSignature` and `ClassModelInDeclarationOrder`.
- `CollectedIndices` and `SelectedPositions` (lines 72-86): the declaration
  positions the inner loop keeps. They are stated by
  `CollectedIndicesExact`.
- `ClassModel` (lines 69-100): the qualified name with the collected
  entries. It is stated by `CollectMethodsAt` and
  `ClassModelInDeclarationOrder`.
- `Artifacts` (lines 61-116): the requests of the outer loop, root by root.
  It is stated by `Process`, `ArtifactsAppend`, `ArtifactsSound`,
  `ArtifactsComplete` and `ArtifactCountBound`.
- `TypeCount` (lines 62-64): the number of interface and class roots. It is
  used by `ArtifactCountBound`.

How the library calls are represented:

- `jsClass.getClassName()` and `jsClass.getPackageName()` belong to the
  script-generation library, whose source is not part of this model. They
  are the parameters `className` and `packageName` of `Process`. Both are
  arbitrary functions of the qualified class name, and nothing is assumed
  about how the name is split.
- The write through the host's `Filer` becomes an `Artifact` appended to the
  result of `Process`. It records the package, the file name, the
  originating element and the model the serializer would render.
- The root elements of a round arrive as a sequence in the host's iteration
  order.
- Exception types are kept as a sequence, with order and duplicates,
  because `addExceptionType` appends them one at a time
  (GenerateRmiScript.java:96-98).
- Every collected method is appended with `addMethod` (line 99), overloads
  included. Nothing is deduplicated or renamed.

## Model

| member | source | states |
|---|---|---|
| `GenerateRmiScript.AnnotatedWith` | src/main/java/js/tools/apt/GenerateRmiScript.java:153-162 | the early-return scan over the annotation list is true iff some annotation's simple name is in the searched set |
| `GenerateRmiScript.IsRemote` | src/main/java/js/tools/apt/GenerateRmiScript.java:152-163 | an element is remote iff some annotation's simple name is `Service` or `Remote` |
| `GenerateRmiScript.IsLocal` | src/main/java/js/tools/apt/GenerateRmiScript.java:171-179 | an element is local-only iff some annotation's simple name is `Local` |
| `GenerateRmiScript.CollectMethods` | src/main/java/js/tools/apt/GenerateRmiScript.java:72-100 | a class model never has more entries than its type has enclosed elements |
| `GenerateRmiScript.CollectedIndices` | src/main/java/js/tools/apt/GenerateRmiScript.java:72-86 | every collected position is the position of an enclosed element |
| `GenerateRmiScript.RootArtifacts` | src/main/java/js/tools/apt/GenerateRmiScript.java:101-108 | a root element yields at most one request; it yields one iff it is an interface or class with a non-empty model; that request carries the element, its model, the file name class name + `.js` and the class's package |
| `GenerateRmiScript.ExtractSignature` | src/main/java/js/tools/apt/GenerateRmiScript.java:87-98 | the built method entry has the method's name and return type, and its parameters and thrown types in declaration order |
| `GenerateRmiScript.Process` | src/main/java/js/tools/apt/GenerateRmiScript.java:60-118 | the round always claims its annotations; the requests it issues are exactly `Artifacts(roots, className, packageName)`, in order |
| `RmiProperties.CollectedIndicesExact` | src/main/java/js/tools/apt/GenerateRmiScript.java:72-86 | the collected positions are strictly increasing, and a position is collected iff its element passes the four checks |
| `RmiProperties.CollectMethodsAt` | src/main/java/js/tools/apt/GenerateRmiScript.java:72-99 | the k-th entry of a class model is the signature of the element at the k-th collected position, and the two lists have the same length |
| `RmiProperties.MemberSelection` | src/main/java/js/tools/apt/GenerateRmiScript.java:72-86 | an enclosed element is collected iff it is a method, not private or protected, not marked `Local`, and its type is remote or it is marked `Service` or `Remote` |
| `RmiProperties.NonMethodNeverCollected` | src/main/java/js/tools/apt/GenerateRmiScript.java:72-75 | fields, constructors, nested types and every other non-method element are never collected |
| `RmiProperties.NonPublicNeverCollected` | src/main/java/js/tools/apt/GenerateRmiScript.java:77-79 | a method with the private or protected modifier (the test of `isNotPublic`, lines 142-144) is never collected, whatever the annotations of it or its type |
| `RmiProperties.LocalOverridesRemote` | src/main/java/js/tools/apt/GenerateRmiScript.java:80-82 | a method marked `Local` is never collected, even on a remote type and even when it is marked remote itself |
| `RmiProperties.NonRemoteTypeKeepsRemoteMethods` | src/main/java/js/tools/apt/GenerateRmiScript.java:83-85 | on a type without a remote marker, a member is collected iff it is a non-private, non-protected, non-local method that is itself marked `Service` or `Remote` |
| `RmiProperties.RemoteTypeKeepsEveryEligibleMethod` | src/main/java/js/tools/apt/GenerateRmiScript.java:67-87 | on a remote type, a member is collected iff it is a method that is neither private, protected nor `Local`, whatever its own annotations |
| `RmiProperties.ClassModelInDeclarationOrder` | src/main/java/js/tools/apt/GenerateRmiScript.java:69-99 | the class model carries the type's qualified name; its entries follow strictly increasing declaration positions, each with the method's name, return type, parameters and thrown types unchanged |
| `RmiProperties.NothingCollected` | src/main/java/js/tools/apt/GenerateRmiScript.java:72-100 | when no enclosed element passes the checks, the class model is empty |
| `RmiProperties.UnmarkedTypeYieldsNothing` | src/main/java/js/tools/apt/GenerateRmiScript.java:83-103 | a type with no remote marker on itself or on any member has an empty model and yields no request |
| `RmiProperties.ArtifactsAppend` | src/main/java/js/tools/apt/GenerateRmiScript.java:61-116 | the requests of a round over two concatenated runs of root elements are the requests of the first run followed by those of the second |
| `RmiProperties.NonTypeRootContributesNothing` | src/main/java/js/tools/apt/GenerateRmiScript.java:62-64 | inserting a root element that is neither an interface nor a class anywhere among the roots leaves the requests unchanged |
| `RmiProperties.ArtifactsSound` | src/main/java/js/tools/apt/GenerateRmiScript.java:101-108 | every request comes from an interface or class root element, carries that element's non-empty model and is named class name + `.js` in the class's package |
| `RmiProperties.ArtifactsComplete` | src/main/java/js/tools/apt/GenerateRmiScript.java:101-108 | every interface or class root element with a non-empty model has its request issued |
| `RmiProperties.ArtifactCountBound` | src/main/java/js/tools/apt/GenerateRmiScript.java:101-105 | a round issues at most as many requests as it has interface and class root elements |
| `RmiScenarios.RemoteInterfaceScenario` | src/main/java/js/tools/apt/GenerateRmiScript.java:72-99 | a remote interface with `bar(int x)`, private `baz()` and local-only `qux()` yields exactly one entry, `bar` with parameter `(int, x)` and no exceptions |
| `RmiScenarios.ServiceMethodScenario` | src/main/java/js/tools/apt/GenerateRmiScript.java:72-99 | a class without a type marker, with `hello()` marked `Service` and a plain public `world()`, yields exactly one entry, `hello` |

## Left out

- `init` and the `Filer`: host plumbing. The write request is the `Artifact` that `Process` returns; `createResource`, `openWriter`, the serializer call and `close` are not modelled.
- I/O failures from creating, writing or closing a script are not modelled. The source only prints their stack traces and then moves on to the next root element, which is what the loop of `Process` does anyway.
- `JsClass.serialize`, `Builder.createJsClass`, `getClassName` and `getPackageName` belong to the script-generation library, whose source is not part of this model. The two name functions are opaque parameters; the output format is not modelled.
- Type mirrors are opaque strings. Their `toString()` rendering is not modelled.
- The `@SupportedAnnotationTypes` registration and the host's choice of rounds decide when the processor runs. They are not modelled.
- Overloaded methods are appended as separate entries. The serializer decides what it does with entries that share a name, and that is not modelled.
