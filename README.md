# Seam Catch commands for JBoss Forge, modelled in Dafny

The Seam Catch plugin for the JBoss Forge shell adds two commands to a Java
project. `seam-catch create-handler-container` creates a public class annotated
with `@HandlesExceptions`. `handler create` adds an exception handler method to
such a class. The method has one parameter of the form
`@Handles(...) final CaughtException<T> caughtException`, and the command adds
the imports that parameter needs. `seam-catch setup` installs the Catch facet if
the project does not yet have it.

This project models these parts:

- **`handler create`** (module `HandlerPlugin`). This is an imperative method
  over a mutable Java class model. It does five things:
  - It refuses a class without `@HandlesExceptions`.
  - It cleans the exception type.
  - It builds the parameter text step by step, as the source's `StringBuilder` does.
  - It appends one public void method.
  - It adds each import only if it is missing.

  Pure functions state what the text and the import list must be, and lemmas
  prove what they mean: the four annotation shapes, the precedence names,
  which imports appear, idempotence and no duplicates.
- **The Java class model** (module `JavaModel`). This is a class with a
  package, a name, a visibility flag, a set of annotations, a list of imports
  and a list of methods. The Forge parser operations the plugin calls update
  it in place.
- **The precedence levels** (module `Precedence`). These are Solder's integer
  constants and the `switch` that names them. A value the `switch` does not name
  renders as nothing.
- **`seam-catch`** (module `CatchPlugin`). It covers four things:
  - the rewrite of a directory path into a package name;
  - the scan over source folders, where the first folder that contains the
    current directory decides;
  - the package choice: explicit, then derived, then prompted;
  - the container factory and the setup step.
- **The test scenarios** (module `HandlerExamples`), worked out on the model.

`String.replace` and `String.startsWith` are in `StringOps`, and the `Option`
type, which stands for a Java value that may be null, is in `Wrappers`.

Six things the source gets from its environment are inputs of the model:

- the current class of the shell;
- the list of source folders;
- the current directory;
- Forge's `ResourceUtil.isChildOf`, given as a function argument;
- the answer the user would give at the prompt;
- whether the facet installation that the setup event triggers succeeds.

## Model

| member | source | states |
|---|---|---|
| HandlerPlugin.HandlerCommand | src/main/java/org/jboss/seam/exception/forge/HandlerPlugin.java:101-168 | A class without @HandlesExceptions is refused, and the outcome is HandlerAdded exactly when the annotation is present. A refused class is unchanged in every field. On success, exactly one method is appended after the existing ones: public, void, with the given name and the handler parameter text. The imports become the old imports with each requested import added if missing. Package, name, visibility and annotations are unchanged. |
| HandlerPlugin.BuildParameter | src/main/java/org/jboss/seam/exception/forge/HandlerPlugin.java:107-159 | The text accumulated by the builder is the annotation for the two options, then ` final CaughtException<`, then the cleaned exception type, then `> caughtException`. |
| HandlerPlugin.ImportIfMissing | src/main/java/org/jboss/seam/exception/forge/HandlerPlugin.java:119-120 | A guarded import appends the name only when it is not yet imported. Nothing else in the class changes. |
| HandlerPlugin.AnnotationBare | src/main/java/org/jboss/seam/exception/forge/HandlerPlugin.java:114-126 | With breadthFirst false and the default precedence, the annotation is exactly `@Handles`. |
| HandlerPlugin.AnnotationBreadthFirst | src/main/java/org/jboss/seam/exception/forge/HandlerPlugin.java:114-124 | With breadthFirst true and the default precedence, the annotation is `@Handles(during = TraversalMode.BREADTH_FIRST)`. |
| HandlerPlugin.AnnotationPrecedence | src/main/java/org/jboss/seam/exception/forge/HandlerPlugin.java:126-156 | With breadthFirst false and a non-default precedence, the annotation is `@Handles(precedence = ` + the switch's level name + `)`. |
| HandlerPlugin.AnnotationBoth | src/main/java/org/jboss/seam/exception/forge/HandlerPlugin.java:114-156 | With both options, there are two arguments. The traversal mode comes first, then `, `, then the precedence argument. |
| HandlerPlugin.HandlesAnnotationShapes | src/main/java/org/jboss/seam/exception/forge/HandlerPlugin.java:114-156 | The annotation has one of four shapes, chosen by the two options, as listed in the four rows above. |
| HandlerPlugin.ImportsInTurn | src/main/java/org/jboss/seam/exception/forge/HandlerPlugin.java:119-168 | Adding the requested imports in order is the same as the command's four guarded adds: TraversalMode if breadth-first, then Precedence if non-default, then Handles, then the original exception type unless it starts with "java.lang". |
| HandlerPlugin.ImportsAfterExtends | src/main/java/org/jboss/seam/exception/forge/HandlerPlugin.java:119-167 | Existing imports are kept, in their order, at the front of the list. |
| HandlerPlugin.ImportsAfterMembership | src/main/java/org/jboss/seam/exception/forge/HandlerPlugin.java:119-168 | A name is imported afterwards if and only if it was imported before or was requested. |
| HandlerPlugin.ImportsAfterNoDuplicates | src/main/java/org/jboss/seam/exception/forge/HandlerPlugin.java:119-167 | If no import appeared twice before the adds, none appears twice after them. |
| HandlerPlugin.ImportsAfterAllPresent | src/main/java/org/jboss/seam/exception/forge/HandlerPlugin.java:119-167 | When every requested name is already imported, the import list is unchanged. |
| HandlerPlugin.ImportsAfterIdempotent | src/main/java/org/jboss/seam/exception/forge/HandlerPlugin.java:119-167 | Requesting the same imports a second time adds nothing. |
| HandlerPlugin.HandlerImports | src/main/java/org/jboss/seam/exception/forge/HandlerPlugin.java:119-168 | After a successful call, a name is imported if and only if one of these holds: it was imported before; it is Handles; it is TraversalMode and breadthFirst is set; it is Precedence and the precedence is non-default; or it is the exception type and that type does not start with "java.lang". |
| HandlerPlugin.CaughtExceptionNotImported | src/main/java/org/jboss/seam/exception/forge/HandlerPlugin.java:158-168 | CaughtException is imported after the call if and only if it was imported before, unless it is itself the exception type. |
| HandlerPlugin.CleanJavaLangType | src/main/java/org/jboss/seam/exception/forge/HandlerPlugin.java:107-110 | For a type "java.lang" + rest, where rest contains no further "java.lang", the cleaned type is rest, including its leading dot. |
| HandlerPlugin.CleanThrowable | src/main/java/org/jboss/seam/exception/forge/HandlerPlugin.java:109-110 | `java.lang.Throwable` is written `.Throwable`. |
| HandlerPlugin.OtherTypesKept | src/main/java/org/jboss/seam/exception/forge/HandlerPlugin.java:107-168 | A type that does not start with "java.lang" is written unchanged. It is requested as an import whatever the breadth-first and precedence options are. |
| Precedence.LevelOf | src/main/java/org/jboss/seam/exception/forge/HandlerPlugin.java:139-153 | The switch selects a level only when the value is that level's constant, and it does select every level whose constant the value is. |
| Precedence.LevelsDistinct | src/main/java/org/jboss/seam/exception/forge/HandlerPlugin.java:141-152 | Two levels have the same constant, or render the same name, only when they are the same level. |
| Precedence.DefaultIsNoLevel | src/main/java/org/jboss/seam/exception/forge/HandlerPlugin.java:122-126 | DEFAULT (0) is no named level. |
| Precedence.SwitchTextCases | src/main/java/org/jboss/seam/exception/forge/HandlerPlugin.java:139-153 | -100 renders as Precedence.BUILT_IN, -50 as FRAMEWORK, 100 as HIGH and 50 as LOW, in both directions. Every other value renders as the empty text. |
| HandlerExamples.UnnamedPrecedence | src/main/java/org/jboss/seam/exception/forge/HandlerPlugin.java:126-156 | A non-zero value that names no level gives `@Handles(precedence = )`, or the same after the traversal mode. Precedence is still requested, for every exception type and either breadth-first setting. |
| HandlerExamples.MinimalThrowableHandler | src/test/java/org/jboss/seam/exception/forge/test/HandlerPluginTest.java:66-70 | The minimal handler on java.lang.Throwable has the parameter `@Handles final CaughtException<.Throwable> caughtException`. It requests only Handles. |
| HandlerExamples.BreadthFirstHandler | src/test/java/org/jboss/seam/exception/forge/test/HandlerPluginTest.java:72-80 | The breadth-first handler on Throwable has the traversal mode as its one argument. It requests TraversalMode, Handles and Throwable, in that order. |
| HandlerExamples.PrecedenceHandlers | src/test/java/org/jboss/seam/exception/forge/test/HandlerPluginTest.java:82-101 | Precedences 50, 100, -50 and -100 each render as their named level, as the only argument. |
| HandlerExamples.AllOptionsHandler | src/test/java/org/jboss/seam/exception/forge/test/HandlerPluginTest.java:106-118 | With all options on CreationException, the traversal mode comes before the LOW precedence. TraversalMode, Precedence, Handles and CreationException are requested in that order. |
| HandlerExamples.PrecedenceSession | src/test/java/org/jboss/seam/exception/forge/test/HandlerPluginTest.java:51-91 | A container is created in com.example.exceptionHandler, then a LOW and a HIGH handler are added. The result has both methods in order and the imports HandlesExceptions, Precedence, Handles and Throwable. |
| JavaModel.JavaClass.constructor | src/main/java/org/jboss/seam/exception/forge/CatchPlugin.java:117 | A created class has no annotations, imports or methods. Its package, name and visibility are placeholders, which the setter chain at lines 118-120 overwrites. |
| JavaModel.JavaClass.AddImport | src/main/java/org/jboss/seam/exception/forge/HandlerPlugin.java:120-168 | `addImport` appends the name to the imports. Nothing else changes. |
| JavaModel.JavaClass.AddMethod | src/main/java/org/jboss/seam/exception/forge/HandlerPlugin.java:112-161 | `addMethod` appends the method after the existing ones. Names are not checked. Nothing else changes. |
| JavaModel.JavaClass.AddAnnotation | src/main/java/org/jboss/seam/exception/forge/CatchPlugin.java:121 | `addAnnotation` puts the annotation on the class and imports its type unless it is already imported. |
| JavaModel.JavaClass.SetPackage | src/main/java/org/jboss/seam/exception/forge/CatchPlugin.java:118 | Only the package changes. |
| JavaModel.JavaClass.SetName | src/main/java/org/jboss/seam/exception/forge/CatchPlugin.java:119 | Only the name changes. |
| JavaModel.JavaClass.SetPublic | src/main/java/org/jboss/seam/exception/forge/CatchPlugin.java:120 | The class becomes public. Nothing else changes. |
| CatchPlugin.PackagePortion | src/main/java/org/jboss/seam/exception/forge/CatchPlugin.java:142-143 | The rewritten directory contains no "/" and is never longer than the directory name. |
| CatchPlugin.PackagePortionOfChild | src/main/java/org/jboss/seam/exception/forge/CatchPlugin.java:141-143 | For a directory `folder/rel` whose rel does not repeat `folder/`, the package is rel with every "/" replaced by ".". The folder's trailing slash is not part of the package. |
| CatchPlugin.SingleSegmentPackage | src/main/java/org/jboss/seam/exception/forge/CatchPlugin.java:142-143 | A directory one level below a source folder names the package that is that level's name. |
| CatchPlugin.DirectoryPackageNone | src/main/java/org/jboss/seam/exception/forge/CatchPlugin.java:138-146 | There is no package (null) if and only if no source folder contains the current directory. |
| CatchPlugin.DirectoryPackageFirst | src/main/java/org/jboss/seam/exception/forge/CatchPlugin.java:138-144 | When folder i is the first to contain the current directory, the package is the one that folder gives, whatever the later folders are. |
| CatchPlugin.GetPackagePortionOfCurrentDirectory | src/main/java/org/jboss/seam/exception/forge/CatchPlugin.java:136-147 | The loop with its early return gives the package of the first containing folder, or None. |
| CatchPlugin.ContainerPackagePriority | src/main/java/org/jboss/seam/exception/forge/CatchPlugin.java:108-115 | A non-null, non-empty package option is used verbatim. A null or empty option falls back to the derived package if there is one, and to the prompt's answer otherwise. |
| CatchPlugin.PromptIsLastResort | src/main/java/org/jboss/seam/exception/forge/CatchPlugin.java:110-115 | The prompt's answer can change the package only when there is neither an explicit package nor a derived one. |
| CatchPlugin.NewExceptionHandlerContainer | src/main/java/org/jboss/seam/exception/forge/CatchPlugin.java:104-121 | The container is a fresh class with the chosen package and the given name. It is public, annotated with @HandlesExceptions, imports only HandlesExceptions and has no methods. |
| CatchPlugin.Project.Run | src/main/java/org/jboss/seam/exception/forge/CatchPlugin.java:83-87 | The install event fires exactly when the facet was missing. The facet is present afterwards if it was before or the installation succeeds. Success is reported exactly when the facet is present. |
| StringOps.ReplaceAll | src/main/java/org/jboss/seam/exception/forge/HandlerPlugin.java:110 | Replacing a target by a text no longer than itself never lengthens the string. Replacing it by a text of the same length keeps the length. |
| StringOps.NotStartsWith | src/main/java/org/jboss/seam/exception/forge/HandlerPlugin.java:109 | One differing character within the prefix's length refutes `startsWith`. |
| StringOps.ReplaceAllAbsent | src/main/java/org/jboss/seam/exception/forge/HandlerPlugin.java:110 | Where the target does not occur, `replace` changes nothing. |
| StringOps.AbsentCharacter | src/main/java/org/jboss/seam/exception/forge/CatchPlugin.java:142 | A target with a character that the string lacks does not occur in the string. |
| StringOps.RemoveAllShortens | src/main/java/org/jboss/seam/exception/forge/HandlerPlugin.java:110 | Removing a target that occurs strictly shortens the string. |
| StringOps.RemoveAllUnchangedIff | src/main/java/org/jboss/seam/exception/forge/HandlerPlugin.java:110 | Removing every occurrence leaves the string as it was if and only if the target does not occur. |
| StringOps.ReplaceCharAt | src/main/java/org/jboss/seam/exception/forge/CatchPlugin.java:143 | Replacing one character by another keeps the length and works position by position. |
| StringOps.ReplaceCharRemovesAll | src/main/java/org/jboss/seam/exception/forge/CatchPlugin.java:143 | After "/" is replaced by ".", no "/" is left. |
| HandlerPlugin.CleanExceptionType | src/main/java/org/jboss/seam/exception/forge/HandlerPlugin.java:107-110 | A type starting with "java.lang" becomes strictly shorter. Any other type is written unchanged. |
| HandlerPlugin.HandlesArguments | src/main/java/org/jboss/seam/exception/forge/HandlerPlugin.java:116-156 | The definition of the annotation's arguments in written order: the traversal mode if breadth-first, then `precedence = ` and the switch text if the precedence is non-default. The four annotation lemmas state the texts that result. |
| HandlerPlugin.HandlesAnnotation | src/main/java/org/jboss/seam/exception/forge/HandlerPlugin.java:114-156 | The definition of the annotation: `@Handles`, then the arguments joined by `, ` in parentheses when there are any. The annotation lemmas state its texts. |
| HandlerPlugin.AnnotationBareIff | src/main/java/org/jboss/seam/exception/forge/HandlerPlugin.java:114-156 | The annotation always starts with `@Handles`. It is exactly `@Handles` if and only if breadthFirst is false and the precedence is the default. |
| HandlerPlugin.HandlerParameter | src/main/java/org/jboss/seam/exception/forge/HandlerPlugin.java:114-159 | The definition of the whole parameter: the annotation, then ` final CaughtException<`, the cleaned type and `> caughtException`. BuildParameter is proved equal to it. |
| HandlerPlugin.HandlerMethod | src/main/java/org/jboss/seam/exception/forge/HandlerPlugin.java:161 | The definition of the appended method: public, void, the given name, the handler parameter. HandlerCommand is stated in it. |
| HandlerPlugin.RequestedImports | src/main/java/org/jboss/seam/exception/forge/HandlerPlugin.java:119-168 | The definition of the imports the command asks for, in its order. HandlerImports and ImportsInTurn state what they mean. |
| HandlerPlugin.AddIfMissing | src/main/java/org/jboss/seam/exception/forge/HandlerPlugin.java:119-120 | The definition of one `hasImport`-guarded add. ImportIfMissing is proved against it. |
| HandlerPlugin.ImportsAfter | src/main/java/org/jboss/seam/exception/forge/HandlerPlugin.java:119-168 | The definition of the guarded adds in turn. The ImportsAfter lemmas state membership, prefix, no duplicates and idempotence. |
| Precedence.SwitchText | src/main/java/org/jboss/seam/exception/forge/HandlerPlugin.java:139-155 | The definition of what the switch appends. SwitchTextCases states it value by value. |
| CatchPlugin.DirectoryPackage | src/main/java/org/jboss/seam/exception/forge/CatchPlugin.java:138-146 | The definition of the folder scan: the first containing folder decides. DirectoryPackageFirst and DirectoryPackageNone characterise it. |
| CatchPlugin.ContainerPackage | src/main/java/org/jboss/seam/exception/forge/CatchPlugin.java:106-115 | The definition of the package choice. ContainerPackagePriority and PromptIsLastResort state its order. |
| JavaModel.JavaClass.HasAnnotation | src/main/java/org/jboss/seam/exception/forge/HandlerPlugin.java:101 | The definition of `hasAnnotation`: membership in the class's annotations. |
| JavaModel.JavaClass.HasImport | src/main/java/org/jboss/seam/exception/forge/HandlerPlugin.java:119-167 | The definition of `hasImport`: exact membership of the qualified name in the imports. |

## Left out

- Saving the class (`saveJavaSource`), the messages written to the shell
  (`println`, `renderColor`) and `shell.execute("pick-up ...")` are output
  side effects. They are not modelled.
- Where the class comes from is not modelled. `getJavaClass` and
  `getJavaClassFrom` look up the shell's current resource and throw when it is
  not a Java class. The `FileNotFoundException` branch of `handlerCommand` is
  left out too. The model takes the class as an input.
- `ResourceUtil.isChildOf`, `getSourceFolders`, `shell.getCurrentDirectory` and
  `prompt.promptCommon` are inputs:
  - `isChildOf` is a function argument.
  - The folders and the directory are their fully qualified names.
  - The current directory is read once, although the loop reads it on every
    pass. The shell does not change it during the loop.
  - The prompt's answer is an argument that is used only when the package
    choice reaches it.
- CatchFacet (repository and dependency resolution, version prompts, facet
  registration) is left out. `Project.Run` reduces it to whether the facet is
  present and whether installing it succeeds.
- The Forge parser's re-rendering of parameters is left out. The tests compare
  its normalised text, such as `during=...,precedence=...`, and it checks for
  syntax errors. The model keeps the raw text the command builds.
- JavaModel.JavaClass.HasImport: Forge's `hasImport` is modelled as exact
  membership of the qualified name in the import list. The tests check
  `hasImport` for the `org.jboss.seam.exception.control` classes, which the
  test imports, while the code imports the `org.jboss.solder.exception.control`
  classes. Under exact membership those test assertions would not hold; the
  model follows the code's names.
- HandlerPlugin.HandlerCommand: `addMethod()` at the start of the command
  appends a blank method that the setter chain fills in at the end. The model
  appends the finished method at that later point. The final class is the same.
  The text builder is a separate method, `BuildParameter`, and the two guarded
  imports that the source interleaves with the builder run right after it, in
  the same order.
- StringOps.ReplaceAll does not model Java's empty-target case, which inserts
  the replacement between characters. The plugin never replaces an empty
  target: its targets are "java.lang", a folder name followed by "/", and "/".
- `Precedence` is Solder's class. Only its five integer constants are used:
  DEFAULT 0, LOW 50, HIGH 100, FRAMEWORK -50 and BUILT_IN -100.
- A non-zero precedence that names no level follows the code: it renders
  `precedence = )` and still imports Precedence. It is not treated as the
  default.
