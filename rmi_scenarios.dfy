/** Two example declarations: a remote interface with `bar`, private `baz` and
    local-only `qux`; a class with a `Service` method `hello` and a plain `world`. */
module RmiScenarios {
  import opened Elements
  import opened JsModel
  import opened GenerateRmiScript

  function MethodDecl(modifiers: set<Modifier>, annotations: seq<string>, name: string,
                      parameters: seq<Parameter>): Element
  {
    Element(Method, modifiers, annotations, name, "", "void", parameters, [], [])
  }

  function TypeDecl(kind: ElementKind, annotations: seq<string>, qualifiedName: string, members: seq<Element>): Element
  {
    Element(kind, {Public}, annotations, qualifiedName, qualifiedName, "", [], [], members)
  }

  /** A remote interface Foo with bar(int x), private baz() and local-only qux():
      only bar becomes a stub entry, with its one parameter and no exceptions. */
  lemma RemoteInterfaceScenario()
    ensures ClassModel(TypeDecl(Interface, [RemoteMarker], "Foo", [
        MethodDecl({Public, Abstract}, [], "bar", [Parameter("int", "x")]),
        MethodDecl({Private}, [], "baz", []),
        MethodDecl({Public, Abstract}, [LocalMarker], "qux", [])])).methods
      == [JsMethod("bar", "void", [Parameter("int", "x")], [])]
  {
    var bar := MethodDecl({Public, Abstract}, [], "bar", [Parameter("int", "x")]);
    var baz := MethodDecl({Private}, [], "baz", []);
    var qux := MethodDecl({Public, Abstract}, [LocalMarker], "qux", []);
    var members := [bar, baz, qux];
    assert IsRemote(TypeDecl(Interface, [RemoteMarker], "Foo", members)) by {
      assert TypeDecl(Interface, [RemoteMarker], "Foo", members).annotations[0] == RemoteMarker;
    }
    assert IsLocal(qux) by {
      assert qux.annotations[0] == LocalMarker;
    }
    assert members[..2] == [bar, baz] && [bar, baz][..1] == [bar] && [bar][..0] == [];
    assert !Collected(true, qux) && !Collected(true, baz) && Collected(true, bar);
    assert CollectMethods(true, [bar]) == [Signature(bar)];
    assert CollectMethods(true, [bar, baz]) == [Signature(bar)];
    assert CollectMethods(true, members) == [Signature(bar)];
  }

  /** A class Bar without a type-level marker, with hello() marked as a service
      method and a plain public world(): only hello becomes a stub entry. */
  lemma ServiceMethodScenario()
    ensures ClassModel(TypeDecl(Class, [], "Bar", [
        MethodDecl({Public}, [ServiceMarker], "hello", []),
        MethodDecl({Public}, [], "world", [])])).methods
      == [JsMethod("hello", "void", [], [])]
  {
    var hello := MethodDecl({Public}, [ServiceMarker], "hello", []);
    var world := MethodDecl({Public}, [], "world", []);
    var members := [hello, world];
    assert IsRemote(hello) by {
      assert hello.annotations[0] == ServiceMarker;
    }
    assert members[..1] == [hello] && [hello][..0] == [];
    assert !IsRemote(world) && Collected(false, hello) && !Collected(false, world);
    assert CollectMethods(false, [hello]) == [Signature(hello)];
    assert CollectMethods(false, members) == [Signature(hello)];
  }
}
