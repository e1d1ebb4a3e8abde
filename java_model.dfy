/**
 * The part of the Forge parser's in-memory Java class model that the plugin
 * reads and updates: a class's package, name and visibility, its annotations,
 * its imports (fully qualified names in source order) and its methods.
 */
module JavaModel {

  datatype Visibility = PackagePrivate | Public | Protected | Private

  datatype ReturnType = Void | Returns(typeName: string)

  /** A method of the class: visibility, return type, name and the text of its parameter list. */
  datatype MethodStub = MethodStub(
    visibility: Visibility,
    returnType: ReturnType,
    name: string,
    parameters: string)

  /** No qualified name is imported twice. */
  predicate NoDuplicates(imports: seq<string>)
  {
    forall i, j :: 0 <= i < j < |imports| ==> imports[i] != imports[j]
  }

  class JavaClass {
    var packageName: string
    var name: string
    var isPublic: bool
    /** Qualified names of the annotations on the class itself. */
    var annotations: set<string>
    /** Qualified names of the imports, in source order. */
    var imports: seq<string>
    var methods: seq<MethodStub>

    /**
     * A class as `JavaParser.create(JavaClass.class)` gives it: no annotations,
     * imports or methods. Its package, name and visibility are placeholders
     * here, which the container factory's setter chain overwrites.
     */
    constructor ()
      ensures packageName == "" && name == "" && !isPublic
      ensures annotations == {} && imports == [] && methods == []
    {
      packageName := "";
      name := "";
      isPublic := false;
      annotations := {};
      imports := [];
      methods := [];
    }

    function HasAnnotation(annotation: string): bool
      reads this
    {
      annotation in annotations
    }

    function HasImport(qualifiedName: string): bool
      reads this
    {
      qualifiedName in imports
    }

    /** `addImport`: the import goes at the end of the list. */
    method AddImport(qualifiedName: string)
      modifies this
      ensures imports == old(imports) + [qualifiedName]
      ensures packageName == old(packageName) && name == old(name) && isPublic == old(isPublic)
      ensures annotations == old(annotations) && methods == old(methods)
    {
      imports := imports + [qualifiedName];
    }

    /** `addMethod`: the method goes after all existing ones; names are not checked. */
    method AddMethod(m: MethodStub)
      modifies this
      ensures methods == old(methods) + [m]
      ensures packageName == old(packageName) && name == old(name) && isPublic == old(isPublic)
      ensures annotations == old(annotations) && imports == old(imports)
    {
      methods := methods + [m];
    }

    /**
     * `addAnnotation(type)`: the annotation is put on the class and its type
     * is imported unless it already is.
     */
    method AddAnnotation(annotation: string)
      modifies this
      ensures annotations == old(annotations) + {annotation}
      ensures imports == if annotation in old(imports) then old(imports) else old(imports) + [annotation]
      ensures packageName == old(packageName) && name == old(name) && isPublic == old(isPublic)
      ensures methods == old(methods)
    {
      if !HasImport(annotation) {
        imports := imports + [annotation];
      }
      annotations := annotations + {annotation};
    }

    method SetPackage(p: string)
      modifies this
      ensures packageName == p
      ensures name == old(name) && isPublic == old(isPublic)
      ensures annotations == old(annotations) && imports == old(imports) && methods == old(methods)
    {
      packageName := p;
    }

    method SetName(n: string)
      modifies this
      ensures name == n
      ensures packageName == old(packageName) && isPublic == old(isPublic)
      ensures annotations == old(annotations) && imports == old(imports) && methods == old(methods)
    {
      name := n;
    }

    method SetPublic()
      modifies this
      ensures isPublic
      ensures packageName == old(packageName) && name == old(name)
      ensures annotations == old(annotations) && imports == old(imports) && methods == old(methods)
    {
      isPublic := true;
    }
  }
}
