/** The part of the compiler's element API that the RMI script generator reads:
    the kind of a declaration, its modifiers, the simple names of its annotations,
    and, for methods, the name, return type, parameters and thrown types.
    Type mirrors are kept as the strings their toString() renders. */
module Elements {

  /** Kinds of declarations the generator tells apart; every other kind of the
      compiler's API (enum, record, package, initialiser, ...) is `Other`. */
  datatype ElementKind =
    | Interface
    | Class
    | Enum
    | AnnotationType
    | Method
    | Constructor
    | Field
    | Other

  datatype Modifier =
    | Public
    | Protected
    | Private
    | Abstract
    | Default
    | Static
    | Final
    | Synchronized
    | Native

  /** A formal parameter: the rendered type and the parameter name. */
  datatype Parameter = Parameter(typeName: string, name: string)

  /** A declaration. Fields that do not apply to a kind (the return type of a
      class, the enclosed elements of a method) are simply empty. */
  datatype Element = Element(
    kind: ElementKind,
    modifiers: set<Modifier>,
    annotations: seq<string>,    // simple names of the annotation types, in order
    simpleName: string,
    qualifiedName: string,
    returnType: string,
    parameters: seq<Parameter>,
    thrownTypes: seq<string>,
    enclosed: seq<Element>)

  /** The kinds the generator processes as root elements. */
  predicate IsTypeKind(k: ElementKind)
  {
    k == Interface || k == Class
  }
}
