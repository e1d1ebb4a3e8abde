/**
 * The handlers the plugin's own tests create
 * (src/test/java/org/jboss/seam/exception/forge/test/HandlerPluginTest.java),
 * worked out on the model: the parameter text the command writes and the
 * imports it asks for. Expected texts are written as the pieces the command
 * appends, in order.
 */
module HandlerExamples {
  import opened StringOps
  import opened Precedence
  import opened Wrappers
  import opened JavaModel
  import opened HandlerPlugin
  import opened CatchPlugin

  /** `--exception-type java.lang.Throwable` and no options: bare annotation and `.Throwable`. */
  lemma MinimalThrowableHandler()
    ensures HandlerParameter("java.lang.Throwable", false, DEFAULT)
            == "@Handles" + " final CaughtException<" + ".Throwable" + "> caughtException"
    ensures RequestedImports("java.lang.Throwable", false, DEFAULT) == [HANDLES]
  {
    CleanThrowable();
    AnnotationBare();
    assert "java.lang.Throwable"[..|JAVA_LANG|] == JAVA_LANG;
  }

  /**
   * `--exception-type Throwable --breadthFirst true`: the traversal mode is
   * the one argument; TraversalMode, Handles and, since it does not start
   * with "java.lang", the unqualified name "Throwable" itself are requested.
   */
  lemma BreadthFirstHandler()
    ensures HandlerParameter("Throwable", true, DEFAULT)
            == "@Handles" + "(" + "during = TraversalMode.BREADTH_FIRST" + ")"
               + " final CaughtException<" + "Throwable" + "> caughtException"
    ensures RequestedImports("Throwable", true, DEFAULT) == [TRAVERSAL_MODE, HANDLES, "Throwable"]
  {
    AnnotationBreadthFirst();
    NotStartsWith("Throwable", JAVA_LANG, 0);
  }

  /** `--precedence 50`, `100`, `-50` and `-100`: each named level is the one argument. */
  lemma PrecedenceHandlers()
    ensures HandlesAnnotation(false, 50) == "@Handles" + "(" + "precedence = " + "Precedence.LOW" + ")"
    ensures HandlesAnnotation(false, 100) == "@Handles" + "(" + "precedence = " + "Precedence.HIGH" + ")"
    ensures HandlesAnnotation(false, -50) == "@Handles" + "(" + "precedence = " + "Precedence.FRAMEWORK" + ")"
    ensures HandlesAnnotation(false, -100) == "@Handles" + "(" + "precedence = " + "Precedence.BUILT_IN" + ")"
  {
    AnnotationPrecedence(50);
    AnnotationPrecedence(100);
    AnnotationPrecedence(-50);
    AnnotationPrecedence(-100);
  }

  /**
   * All options on CreationException: the traversal mode before the LOW
   * precedence, and TraversalMode, Precedence, Handles and CreationException
   * requested in that order.
   */
  lemma AllOptionsHandler()
    ensures HandlesAnnotation(true, 50)
            == "@Handles" + "(" + "during = TraversalMode.BREADTH_FIRST" + ", " + "precedence = " + "Precedence.LOW" + ")"
    ensures RequestedImports("javax.enterprise.inject.CreationException", true, 50)
            == [TRAVERSAL_MODE, PRECEDENCE, HANDLES, "javax.enterprise.inject.CreationException"]
  {
    AnnotationBoth(50);
    NotStartsWith("javax.enterprise.inject.CreationException", JAVA_LANG, 4);
  }

  /**
   * A non-zero precedence that names no level still opens the precedence
   * argument but writes no level name before the closing parenthesis, and
   * still asks for Precedence to be imported.
   */
  lemma UnnamedPrecedence(precedence: int32)
    requires precedence !in {DEFAULT, BUILT_IN, FRAMEWORK, HIGH, LOW}
    ensures HandlesAnnotation(false, precedence) == "@Handles" + "(" + "precedence = " + ")"
    ensures HandlesAnnotation(true, precedence)
            == "@Handles" + "(" + "during = TraversalMode.BREADTH_FIRST" + ", " + "precedence = " + ")"
    ensures forall exceptionType, breadthFirst :: PRECEDENCE in RequestedImports(exceptionType, breadthFirst, precedence)
  {
    assert SwitchText(precedence) == "";
    AnnotationPrecedence(precedence);
    AnnotationBoth(precedence);
  }

  /**
   * The session of the precedence test: a container created with an explicit
   * package, then a LOW and a HIGH handler on Throwable. Both methods are
   * appended in order; the second call asks for nothing new to import.
   */
  method PrecedenceSession() returns (container: JavaClass)
    ensures container.packageName == "com.example.exceptionHandler" && container.name == "TestContainer"
    ensures container.methods == [HandlerMethod("throwableHandlerLow", "Throwable", false, LOW),
                                  HandlerMethod("throwableHandlerHigh", "Throwable", false, HIGH)]
    ensures container.imports == [HANDLES_EXCEPTIONS, PRECEDENCE, HANDLES, "Throwable"]
  {
    container := NewExceptionHandlerContainer("TestContainer", Some("com.example.exceptionHandler"),
                                              [], "", (folder, directory) => false, "");
    NotStartsWith("Throwable", JAVA_LANG, 0);
    var low := HandlerCommand(container, "throwableHandlerLow", "Throwable", false, LOW);
    assert container.imports == [HANDLES_EXCEPTIONS, PRECEDENCE, HANDLES, "Throwable"] by {
      ImportsInTurn([HANDLES_EXCEPTIONS], "Throwable", false, LOW);
    }
    var high := HandlerCommand(container, "throwableHandlerHigh", "Throwable", false, HIGH);
    assert container.imports == [HANDLES_EXCEPTIONS, PRECEDENCE, HANDLES, "Throwable"] by {
      ImportsAfterAllPresent([HANDLES_EXCEPTIONS, PRECEDENCE, HANDLES, "Throwable"],
                             RequestedImports("Throwable", false, HIGH));
    }
  }
}
