/**
 * The `seam-catch` plugin: the setup command, the factory for handler
 * container classes, and the rule that turns the shell's current directory
 * into a package name. The shell, the prompt and Forge's notion of one
 * directory lying inside another are inputs.
 */
module CatchPlugin {
  import opened Wrappers
  import opened StringOps
  import opened JavaModel
  import opened HandlerPlugin

  /**
   * The package named by `currentDirectory` below `sourceFolder`: every
   * occurrence of the folder's name followed by "/" is removed, then every
   * "/" becomes ".". No "/" is left, and the text never grows.
   */
  function PackagePortion(currentDirectory: string, sourceFolder: string): (r: string)
    ensures '/' !in r
    ensures |r| <= |currentDirectory|
  {
    var relative := ReplaceAll(currentDirectory, sourceFolder + "/", "");
    ReplaceCharRemovesAll(relative, '/', '.');
    ReplaceAll(relative, "/", ".")
  }

  /**
   * A directory `sourceFolder/relative` whose relative part does not repeat
   * `sourceFolder/` names the package of `relative` with dots for slashes.
   */
  lemma PackagePortionOfChild(sourceFolder: string, relative: string)
    requires !Occurs(sourceFolder + "/", relative)
    ensures PackagePortion(sourceFolder + "/" + relative, sourceFolder) == ReplaceAll(relative, "/", ".")
  {
    var root := sourceFolder + "/";
    var s := root + relative;
    assert s == sourceFolder + "/" + relative;
    assert s[..|root|] == root;
    assert s[|root|..] == relative;
    ReplaceAllAbsent(relative, root, "");
    assert ReplaceAll(s, root, "") == relative;
  }

  /** A relative part without "/" is one package segment, kept as it is. */
  lemma SingleSegmentPackage(sourceFolder: string, segment: string)
    requires '/' !in segment
    ensures PackagePortion(sourceFolder + "/" + segment, sourceFolder) == segment
  {
    AbsentCharacter("/", segment, 0);
    ReplaceAllAbsent(segment, "/", ".");
    AbsentCharacter(sourceFolder + "/", segment, |sourceFolder|);
    PackagePortionOfChild(sourceFolder, segment);
  }

  /**
   * The package of the current directory: the first source folder that
   * contains it decides, and there is none when no folder contains it.
   * `isChildOf(folder, directory)` stands for Forge's `ResourceUtil.isChildOf`.
   */
  function DirectoryPackage(sourceFolders: seq<string>, currentDirectory: string,
                            isChildOf: (string, string) -> bool): Option<string>
  {
    if |sourceFolders| == 0 then None
    else if isChildOf(sourceFolders[0], currentDirectory) then Some(PackagePortion(currentDirectory, sourceFolders[0]))
    else DirectoryPackage(sourceFolders[1..], currentDirectory, isChildOf)
  }

  /** There is no package exactly when no source folder contains the current directory. */
  lemma {:induction false} DirectoryPackageNone(sourceFolders: seq<string>, currentDirectory: string,
                                               isChildOf: (string, string) -> bool)
    ensures DirectoryPackage(sourceFolders, currentDirectory, isChildOf).None?
            <==> forall j :: 0 <= j < |sourceFolders| ==> !isChildOf(sourceFolders[j], currentDirectory)
    decreases |sourceFolders|
  {
    if |sourceFolders| > 0 && !isChildOf(sourceFolders[0], currentDirectory) {
      DirectoryPackageNone(sourceFolders[1..], currentDirectory, isChildOf);
      assert forall j :: 1 <= j < |sourceFolders| ==> sourceFolders[j] == sourceFolders[1..][j - 1];
    }
  }

  /**
   * When folder `i` is the first to contain the current directory, the
   * package is the one that folder gives, whatever the later folders are.
   */
  lemma {:induction false} DirectoryPackageFirst(sourceFolders: seq<string>, currentDirectory: string,
                                                isChildOf: (string, string) -> bool, i: nat)
    requires i < |sourceFolders| && isChildOf(sourceFolders[i], currentDirectory)
    requires forall j :: 0 <= j < i ==> !isChildOf(sourceFolders[j], currentDirectory)
    ensures DirectoryPackage(sourceFolders, currentDirectory, isChildOf)
            == Some(PackagePortion(currentDirectory, sourceFolders[i]))
    decreases i
  {
    if i > 0 {
      assert !isChildOf(sourceFolders[0], currentDirectory);
      assert forall j :: 0 <= j < i - 1 ==> sourceFolders[1..][j] == sourceFolders[j + 1];
      DirectoryPackageFirst(sourceFolders[1..], currentDirectory, isChildOf, i - 1);
    }
  }

  /**
   * `getPackagePortionOfCurrentDirectory`: scans the source folders in order
   * and returns at the first that contains the current directory.
   */
  method GetPackagePortionOfCurrentDirectory(sourceFolders: seq<string>, currentDirectory: string,
                                             isChildOf: (string, string) -> bool)
    returns (r: Option<string>)
    ensures r == DirectoryPackage(sourceFolders, currentDirectory, isChildOf)
  {
    var i := 0;
    while i < |sourceFolders|
      invariant 0 <= i <= |sourceFolders|
      invariant DirectoryPackage(sourceFolders[i..], currentDirectory, isChildOf)
                == DirectoryPackage(sourceFolders, currentDirectory, isChildOf)
    {
      if isChildOf(sourceFolders[i], currentDirectory) {
        // The folder's name and its last slash are dropped, so that neither
        // is part of the package.
        var relative := ReplaceAll(currentDirectory, sourceFolders[i] + "/", "");
        return Some(ReplaceAll(relative, "/", "."));
      }
      assert sourceFolders[i..][1..] == sourceFolders[i + 1..];
      i := i + 1;
    }
    return None;
  }

  /**
   * The package of a new container: an explicit non-empty package option,
   * else the package of the current directory, else the prompt's answer.
   * `packageName` is None when the option is absent (Java's null).
   */
  function ContainerPackage(packageName: Option<string>, derived: Option<string>, promptAnswer: string): string
  {
    if packageName.Some? && packageName.value != "" then packageName.value
    else if derived.Some? then derived.value
    else promptAnswer
  }

  /** The explicit package wins over everything, the derived one over the prompt. */
  lemma ContainerPackagePriority(packageName: Option<string>, derived: Option<string>, promptAnswer: string)
    ensures packageName.Some? && packageName.value != "" ==> ContainerPackage(packageName, derived, promptAnswer) == packageName.value
    ensures packageName == Some("") || packageName.None? ==>
              ContainerPackage(packageName, derived, promptAnswer)
              == (if derived.Some? then derived.value else promptAnswer)
  {
  }

  /** The prompt's answer matters only when there is neither an explicit nor a derived package. */
  lemma PromptIsLastResort(packageName: Option<string>, derived: Option<string>, answer1: string, answer2: string)
    ensures ContainerPackage(packageName, derived, answer1) != ContainerPackage(packageName, derived, answer2)
            ==> (packageName.None? || packageName.value == "") && derived.None?
  {
  }

  /**
   * `newExceptionHandlerContainer`: a fresh public class with the given name,
   * in the chosen package, annotated and importing @HandlesExceptions, with no
   * methods. As in the command, the current directory is looked up a second
   * time to fetch the package it was found to have. `promptAnswer` is what the
   * user would answer if asked.
   */
  method NewExceptionHandlerContainer(className: string, packageName: Option<string>,
                                      sourceFolders: seq<string>, currentDirectory: string,
                                      isChildOf: (string, string) -> bool, promptAnswer: string)
    returns (container: JavaClass)
    ensures fresh(container)
    ensures container.packageName
            == ContainerPackage(packageName, DirectoryPackage(sourceFolders, currentDirectory, isChildOf), promptAnswer)
    ensures container.name == className && container.isPublic
    ensures container.annotations == {HANDLES_EXCEPTIONS}
    ensures container.imports == [HANDLES_EXCEPTIONS] && container.methods == []
  {
    var containerPackage: string;
    if packageName.Some? && packageName.value != "" {
      containerPackage := packageName.value;
    } else {
      var derived := GetPackagePortionOfCurrentDirectory(sourceFolders, currentDirectory, isChildOf);
      if derived.Some? {
        var again := GetPackagePortionOfCurrentDirectory(sourceFolders, currentDirectory, isChildOf);
        containerPackage := again.value;
      } else {
        containerPackage := promptAnswer;
      }
    }

    container := new JavaClass();
    container.SetPackage(containerPackage);
    container.SetName(className);
    container.SetPublic();
    container.AddAnnotation(HANDLES_EXCEPTIONS);
  }

  /**
   * The open project, reduced to whether CatchFacet is installed in it.
   */
  class Project {
    var hasCatchFacet: bool

    constructor (installed: bool)
      ensures hasCatchFacet == installed
    {
      hasCatchFacet := installed;
    }

    /**
     * `run`, the setup command: the install event is fired only when the
     * facet is missing, and success is reported exactly when the facet is
     * present afterwards. Whether the installation the event triggers
     * succeeds is `installSucceeds`.
     */
    method Run(installSucceeds: bool) returns (fired: bool, reported: bool)
      modifies this
      ensures fired <==> !old(hasCatchFacet)
      ensures hasCatchFacet == (old(hasCatchFacet) || installSucceeds)
      ensures reported <==> hasCatchFacet
    {
      fired := false;
      if !hasCatchFacet {
        fired := true;
        hasCatchFacet := installSucceeds;
      }
      reported := hasCatchFacet;
    }
  }
}
