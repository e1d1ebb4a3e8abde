/**
 * The `handler create` command: it adds a Seam Catch exception handler
 * method to the class the shell has selected, and imports what the new
 * method refers to.
 */
module HandlerPlugin {
  import opened StringOps
  import opened Precedence
  import opened JavaModel

  /** Qualified names of the Solder types the generated code refers to. */
  const HANDLES := "org.jboss.solder.exception.control.Handles"
  const HANDLES_EXCEPTIONS := "org.jboss.solder.exception.control.HandlesExceptions"
  const PRECEDENCE := "org.jboss.solder.exception.control.Precedence"
  const TRAVERSAL_MODE := "org.jboss.solder.exception.control.TraversalMode"
  const CAUGHT_EXCEPTION := "org.jboss.solder.exception.control.CaughtException"

  /** The prefix of the package whose types need no import. */
  const JAVA_LANG := "java.lang"

  const DURING_BREADTH_FIRST := "during = TraversalMode.BREADTH_FIRST"

  /** How a call ended: refused because the class is no handler container, or with the handler added. */
  datatype Outcome = NotAContainer | HandlerAdded

  /**
   * The exception type as it is written in the parameter: a type starting
   * with "java.lang" loses every occurrence of "java.lang" (the dot after it
   * stays); any other type is written as given.
   */
  function CleanExceptionType(exceptionType: string): (r: string)
    ensures StartsWith(exceptionType, JAVA_LANG) ==> |r| < |exceptionType|
    ensures !StartsWith(exceptionType, JAVA_LANG) ==> r == exceptionType
  {
    if StartsWith(exceptionType, JAVA_LANG) then
      assert exceptionType[0..0 + |JAVA_LANG|] == exceptionType[..|JAVA_LANG|];
      assert OccursAt(JAVA_LANG, exceptionType, 0);
      RemoveAllShortens(exceptionType, JAVA_LANG);
      ReplaceAll(exceptionType, JAVA_LANG, "")
    else exceptionType
  }

  /** The arguments of the `@Handles` annotation, in the order they are written. */
  function HandlesArguments(breadthFirst: bool, precedence: int32): seq<string>
  {
    (if breadthFirst then [DURING_BREADTH_FIRST] else [])
    + (if precedence != DEFAULT then ["precedence = " + SwitchText(precedence)] else [])
  }

  /** The `@Handles` annotation: bare without arguments, else with its arguments in parentheses. */
  function HandlesAnnotation(breadthFirst: bool, precedence: int32): string
  {
    var args := HandlesArguments(breadthFirst, precedence);
    "@Handles" + (if args == [] then "" else "(" + Join(args, ", ") + ")")
  }

  /** The parameter list of the generated handler method. */
  function HandlerParameter(exceptionType: string, breadthFirst: bool, precedence: int32): string
  {
    HandlesAnnotation(breadthFirst, precedence)
    + " final CaughtException<" + CleanExceptionType(exceptionType) + "> caughtException"
  }

  /** The handler method the command appends. */
  function HandlerMethod(methodName: string, exceptionType: string, breadthFirst: bool, precedence: int32): MethodStub
  {
    MethodStub(Public, Void, methodName, HandlerParameter(exceptionType, breadthFirst, precedence))
  }

  /** The imports the command asks for, in the order it asks for them. */
  function RequestedImports(exceptionType: string, breadthFirst: bool, precedence: int32): seq<string>
  {
    (if breadthFirst then [TRAVERSAL_MODE] else [])
    + (if precedence != DEFAULT then [PRECEDENCE] else [])
    + [HANDLES]
    + (if !StartsWith(exceptionType, JAVA_LANG) then [exceptionType] else [])
  }

  /** An import added only when `hasImport` says it is missing. */
  function AddIfMissing(imports: seq<string>, qualifiedName: string): seq<string>
  {
    if qualifiedName in imports then imports else imports + [qualifiedName]
  }

  /** The imports after each of `requested`, in turn, is added if missing. */
  function ImportsAfter(imports: seq<string>, requested: seq<string>): seq<string>
    decreases |requested|
  {
    if requested == [] then imports
    else ImportsAfter(AddIfMissing(imports, requested[0]), requested[1..])
  }

  /** Neither option given: the bare annotation. */
  lemma AnnotationBare()
    ensures HandlesAnnotation(false, DEFAULT) == "@Handles"
  {
  }

  /** The annotation always starts with `@Handles`, and is nothing more exactly when neither option is given. */
  lemma AnnotationBareIff(breadthFirst: bool, precedence: int32)
    ensures StartsWith(HandlesAnnotation(breadthFirst, precedence), "@Handles")
    ensures HandlesAnnotation(breadthFirst, precedence) == "@Handles" <==> !breadthFirst && precedence == DEFAULT
  {
    var args := HandlesArguments(breadthFirst, precedence);
    if args != [] {
      assert |HandlesAnnotation(breadthFirst, precedence)| > |"@Handles"|;
    }
  }

  /** Only breadth-first: the traversal mode is the one argument. */
  lemma AnnotationBreadthFirst()
    ensures HandlesAnnotation(true, DEFAULT) == "@Handles" + "(" + DURING_BREADTH_FIRST + ")"
  {
    assert HandlesArguments(true, DEFAULT) == [DURING_BREADTH_FIRST];
  }

  /** Only a precedence: the precedence is the one argument. */
  lemma AnnotationPrecedence(precedence: int32)
    requires precedence != DEFAULT
    ensures HandlesAnnotation(false, precedence)
            == "@Handles" + "(" + "precedence = " + SwitchText(precedence) + ")"
  {
    assert HandlesArguments(false, precedence) == ["precedence = " + SwitchText(precedence)];
  }

  /** Both options: the traversal mode comes first, then the precedence. */
  lemma AnnotationBoth(precedence: int32)
    requires precedence != DEFAULT
    ensures HandlesAnnotation(true, precedence)
            == "@Handles" + "(" + DURING_BREADTH_FIRST + ", " + "precedence = " + SwitchText(precedence) + ")"
  {
    var level := "precedence = " + SwitchText(precedence);
    var args := HandlesArguments(true, precedence);
    assert args == [DURING_BREADTH_FIRST, level];
    assert Join(args, ", ") == DURING_BREADTH_FIRST + ", " + level;
  }

  /**
   * The four shapes of the annotation: bare, only the traversal mode, only
   * the precedence, or both with the traversal mode first.
   */
  lemma HandlesAnnotationShapes(breadthFirst: bool, precedence: int32)
    ensures !breadthFirst && precedence == DEFAULT ==>
              HandlesAnnotation(breadthFirst, precedence) == "@Handles"
    ensures breadthFirst && precedence == DEFAULT ==>
              HandlesAnnotation(breadthFirst, precedence) == "@Handles" + "(" + DURING_BREADTH_FIRST + ")"
    ensures !breadthFirst && precedence != DEFAULT ==>
              HandlesAnnotation(breadthFirst, precedence)
              == "@Handles" + "(" + "precedence = " + SwitchText(precedence) + ")"
    ensures breadthFirst && precedence != DEFAULT ==>
              HandlesAnnotation(breadthFirst, precedence)
              == "@Handles" + "(" + DURING_BREADTH_FIRST + ", " + "precedence = " + SwitchText(precedence) + ")"
  {
    if precedence == DEFAULT {
      AnnotationBare();
      AnnotationBreadthFirst();
    } else {
      AnnotationPrecedence(precedence);
      AnnotationBoth(precedence);
    }
  }

  /** The requested imports, added in turn, are the four guarded adds of the command. */
  lemma ImportsInTurn(imports: seq<string>, exceptionType: string, breadthFirst: bool, precedence: int32)
    ensures ImportsAfter(imports, RequestedImports(exceptionType, breadthFirst, precedence))
            == var afterTraversal := if breadthFirst then AddIfMissing(imports, TRAVERSAL_MODE) else imports;
               var afterPrecedence := if precedence != DEFAULT then AddIfMissing(afterTraversal, PRECEDENCE) else afterTraversal;
               var afterHandles := AddIfMissing(afterPrecedence, HANDLES);
               if !StartsWith(exceptionType, JAVA_LANG) then AddIfMissing(afterHandles, exceptionType) else afterHandles
  {
    var i1 := if breadthFirst then AddIfMissing(imports, TRAVERSAL_MODE) else imports;
    var i2 := if precedence != DEFAULT then AddIfMissing(i1, PRECEDENCE) else i1;
    var i3 := AddIfMissing(i2, HANDLES);
    var last := if !StartsWith(exceptionType, JAVA_LANG) then [exceptionType] else [];
    var fromHandles := [HANDLES] + last;
    var fromPrecedence := (if precedence != DEFAULT then [PRECEDENCE] else []) + fromHandles;
    assert RequestedImports(exceptionType, breadthFirst, precedence)
           == (if breadthFirst then [TRAVERSAL_MODE] else []) + fromPrecedence;
    assert ImportsAfter(i3, last) == if last == [] then i3 else AddIfMissing(i3, exceptionType) by {
      if last != [] {
        assert last[1..] == [];
      }
    }
    assert ImportsAfter(i2, fromHandles) == ImportsAfter(i3, last) by {
      assert fromHandles[1..] == last;
    }
    assert ImportsAfter(i1, fromPrecedence) == ImportsAfter(i2, fromHandles) by {
      if precedence != DEFAULT {
        assert fromPrecedence[1..] == fromHandles;
      } else {
        assert fromPrecedence == fromHandles;
      }
    }
    if breadthFirst {
      assert ([TRAVERSAL_MODE] + fromPrecedence)[1..] == fromPrecedence;
    } else {
      assert RequestedImports(exceptionType, breadthFirst, precedence) == fromPrecedence;
    }
  }

  /** Adding missing imports keeps the existing ones, in order, at the front. */
  lemma {:induction false} ImportsAfterExtends(imports: seq<string>, requested: seq<string>)
    ensures |imports| <= |ImportsAfter(imports, requested)|
    ensures ImportsAfter(imports, requested)[..|imports|] == imports
    decreases |requested|
  {
    if requested != [] {
      var next := AddIfMissing(imports, requested[0]);
      ImportsAfterExtends(next, requested[1..]);
      assert next[..|imports|] == imports;
    }
  }

  /** A name is imported afterwards exactly when it was imported before or was requested. */
  lemma {:induction false} ImportsAfterMembership(imports: seq<string>, requested: seq<string>, q: string)
    ensures q in ImportsAfter(imports, requested) <==> q in imports || q in requested
    decreases |requested|
  {
    if requested != [] {
      ImportsAfterMembership(AddIfMissing(imports, requested[0]), requested[1..], q);
      assert requested == [requested[0]] + requested[1..];
    }
  }

  /** No import ever appears twice. */
  lemma {:induction false} ImportsAfterNoDuplicates(imports: seq<string>, requested: seq<string>)
    requires NoDuplicates(imports)
    ensures NoDuplicates(ImportsAfter(imports, requested))
    decreases |requested|
  {
    if requested != [] {
      ImportsAfterNoDuplicates(AddIfMissing(imports, requested[0]), requested[1..]);
    }
  }

  /** When everything requested is already imported, nothing is added. */
  lemma {:induction false} ImportsAfterAllPresent(imports: seq<string>, requested: seq<string>)
    requires forall q :: q in requested ==> q in imports
    ensures ImportsAfter(imports, requested) == imports
    decreases |requested|
  {
    if requested != [] {
      assert requested[0] in requested;
      forall q | q in requested[1..]
        ensures q in imports
      {
        assert q in requested;
      }
      ImportsAfterAllPresent(imports, requested[1..]);
    }
  }

  /** Asking for the same imports a second time adds nothing. */
  lemma ImportsAfterIdempotent(imports: seq<string>, requested: seq<string>)
    ensures ImportsAfter(ImportsAfter(imports, requested), requested) == ImportsAfter(imports, requested)
  {
    var once := ImportsAfter(imports, requested);
    forall q | q in requested
      ensures q in once
    {
      ImportsAfterMembership(imports, requested, q);
    }
    ImportsAfterAllPresent(once, requested);
  }

  /**
   * What a successful command imports: Handles always, TraversalMode for a
   * breadth-first handler, Precedence for a non-default precedence, and the
   * exception type unless it starts with "java.lang"; nothing else is added
   * and nothing is lost.
   */
  lemma HandlerImports(imports: seq<string>, exceptionType: string, breadthFirst: bool, precedence: int32)
    ensures var after := ImportsAfter(imports, RequestedImports(exceptionType, breadthFirst, precedence));
            forall q :: q in after <==>
              q in imports
              || q == HANDLES
              || (breadthFirst && q == TRAVERSAL_MODE)
              || (precedence != DEFAULT && q == PRECEDENCE)
              || (!StartsWith(exceptionType, JAVA_LANG) && q == exceptionType)
  {
    var requested := RequestedImports(exceptionType, breadthFirst, precedence);
    forall q
      ensures q in ImportsAfter(imports, requested) <==> q in imports || q in requested
    {
      ImportsAfterMembership(imports, requested, q);
    }
  }

  /**
   * CaughtException, which every generated parameter refers to, is never
   * imported by the command, unless it is itself given as the exception type.
   */
  lemma CaughtExceptionNotImported(imports: seq<string>, exceptionType: string, breadthFirst: bool, precedence: int32)
    requires exceptionType != CAUGHT_EXCEPTION
    ensures CAUGHT_EXCEPTION in ImportsAfter(imports, RequestedImports(exceptionType, breadthFirst, precedence))
            <==> CAUGHT_EXCEPTION in imports
  {
    HandlerImports(imports, exceptionType, breadthFirst, precedence);
  }

  /**
   * A type in java.lang keeps the dot after the package: with no further
   * "java.lang" in the rest of the name, only the leading one is removed.
   */
  lemma CleanJavaLangType(rest: string)
    requires !Occurs(JAVA_LANG, rest)
    ensures CleanExceptionType(JAVA_LANG + rest) == rest
  {
    var t := JAVA_LANG + rest;
    assert t[..|JAVA_LANG|] == JAVA_LANG;
    assert t[|JAVA_LANG|..] == rest;
    ReplaceAllAbsent(rest, JAVA_LANG, "");
  }

  /** `java.lang.Throwable` is written `.Throwable`. */
  lemma CleanThrowable()
    ensures CleanExceptionType("java.lang.Throwable") == ".Throwable"
  {
    AbsentCharacter(JAVA_LANG, ".Throwable", 0);
    CleanJavaLangType(".Throwable");
    assert JAVA_LANG + ".Throwable" == "java.lang.Throwable";
  }

  /** A type outside java.lang is written exactly as given, and imported. */
  lemma OtherTypesKept(exceptionType: string, breadthFirst: bool, precedence: int32)
    requires !StartsWith(exceptionType, JAVA_LANG)
    ensures CleanExceptionType(exceptionType) == exceptionType
    ensures exceptionType in RequestedImports(exceptionType, breadthFirst, precedence)
  {
  }

  /** The guard every import of the command goes through: `if (!hasImport(q)) addImport(q)`. */
  method ImportIfMissing(cls: JavaClass, qualifiedName: string)
    modifies cls
    ensures cls.imports == AddIfMissing(old(cls.imports), qualifiedName)
    ensures cls.methods == old(cls.methods) && cls.annotations == old(cls.annotations)
    ensures cls.packageName == old(cls.packageName) && cls.name == old(cls.name) && cls.isPublic == old(cls.isPublic)
  {
    if !cls.HasImport(qualifiedName) {
      cls.AddImport(qualifiedName);
    }
  }

  /**
   * The text the `StringBuilder` of `handlerCommand` accumulates: the
   * exception type is cleaned, the annotation is opened, given its
   * arguments and closed, and the CaughtException parameter follows.
   */
  method BuildParameter(exceptionType: string, breadthFirst: bool, precedence: int32)
    returns (parameter: string)
    ensures parameter == HandlerParameter(exceptionType, breadthFirst, precedence)
  {
    var cleanedExceptionType := exceptionType;
    if StartsWith(exceptionType, JAVA_LANG) {
      cleanedExceptionType := ReplaceAll(exceptionType, JAVA_LANG, "");
    }

    parameter := "@Handles";
    if breadthFirst {
      parameter := parameter + "(" + DURING_BREADTH_FIRST;
      if precedence == DEFAULT {
        parameter := parameter + ")";
        assert parameter == HandlesAnnotation(breadthFirst, precedence) by {
          AnnotationBreadthFirst();
        }
      }
    } else if precedence == DEFAULT {
      assert parameter == HandlesAnnotation(breadthFirst, precedence) by {
        AnnotationBare();
      }
    }

    if precedence != DEFAULT {
      if !breadthFirst {
        parameter := parameter + "(";
      } else {
        parameter := parameter + ", ";
      }
      parameter := parameter + "precedence = ";
      // The switch has no default case: another value appends nothing.
      var levelName := "";
      if precedence == BUILT_IN {
        levelName := "Precedence.BUILT_IN";
      } else if precedence == FRAMEWORK {
        levelName := "Precedence.FRAMEWORK";
      } else if precedence == HIGH {
        levelName := "Precedence.HIGH";
      } else if precedence == LOW {
        levelName := "Precedence.LOW";
      }
      assert levelName == SwitchText(precedence);
      parameter := parameter + levelName;
      parameter := parameter + ")";
      if breadthFirst {
        assert parameter == HandlesAnnotation(breadthFirst, precedence) by {
          AnnotationBoth(precedence);
        }
      } else {
        assert parameter == HandlesAnnotation(breadthFirst, precedence) by {
          AnnotationPrecedence(precedence);
        }
      }
    }

    parameter := parameter + " final CaughtException<" + cleanedExceptionType + "> caughtException";
  }

  /**
   * `handlerCommand`. The class the shell has selected is `cls`. Nothing
   * changes when it lacks @HandlesExceptions; otherwise one public void
   * method is appended and each missing import it needs is added, in the
   * order TraversalMode, Precedence, Handles, exception type.
   */
  method HandlerCommand(cls: JavaClass, methodName: string, exceptionType: string,
                        breadthFirst: bool, precedence: int32)
    returns (outcome: Outcome)
    modifies cls
    ensures old(cls.HasAnnotation(HANDLES_EXCEPTIONS)) <==> outcome == HandlerAdded
    ensures outcome == NotAContainer ==> unchanged(cls)
    ensures outcome == HandlerAdded ==>
              cls.methods == old(cls.methods) + [HandlerMethod(methodName, exceptionType, breadthFirst, precedence)]
              && cls.imports == ImportsAfter(old(cls.imports), RequestedImports(exceptionType, breadthFirst, precedence))
    ensures cls.annotations == old(cls.annotations) && cls.packageName == old(cls.packageName)
    ensures cls.name == old(cls.name) && cls.isPublic == old(cls.isPublic)
  {
    if !cls.HasAnnotation(HANDLES_EXCEPTIONS) {
      return NotAContainer;
    }
    ImportsInTurn(cls.imports, exceptionType, breadthFirst, precedence);

    var parameter := BuildParameter(exceptionType, breadthFirst, precedence);
    if breadthFirst {
      ImportIfMissing(cls, TRAVERSAL_MODE);
    }
    if precedence != DEFAULT {
      ImportIfMissing(cls, PRECEDENCE);
    }

    // Forge's addMethod() appends a blank method that the setter chain then
    // fills in; the model appends the finished method.
    cls.AddMethod(MethodStub(Public, Void, methodName, parameter));

    ImportIfMissing(cls, HANDLES);
    if !StartsWith(exceptionType, JAVA_LANG) {
      ImportIfMissing(cls, exceptionType);
    }
    outcome := HandlerAdded;
  }
}
