/** The stub model handed to the script serializer: a class named by its qualified
    name with an ordered list of method signatures. Adding a method or a
    parameter appends; nothing is merged or renamed. */
module JsModel {
  import opened Elements

  datatype JsMethod = JsMethod(
    methodName: string,
    returnType: string,
    parameters: seq<Parameter>,
    exceptionTypes: seq<string>)
  {
    function AddParameter(typeName: string, name: string): (r: JsMethod)
    {
      this.(parameters := parameters + [Parameter(typeName, name)])
    }

    function AddExceptionType(exceptionType: string): (r: JsMethod)
    {
      this.(exceptionTypes := exceptionTypes + [exceptionType])
    }
  }

  /** A freshly created method model, before any setter has run. */
  const NewJsMethod := JsMethod("", "", [], [])

  datatype JsClass = JsClass(qualifiedClassName: string, methods: seq<JsMethod>)
  {
    function AddMethod(m: JsMethod): (r: JsClass)
    {
      this.(methods := methods + [m])
    }

    predicate HasMethods()
    {
      methods != []
    }
  }

  /** One request to write a generated script: the package-scoped location, the
      file name, the originating element (for the host's dependency tracking)
      and the model the serializer renders into the file. */
  datatype Artifact = Artifact(packageName: string, fileName: string, origin: Element, model: JsClass)
}
