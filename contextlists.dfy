/**
 * The decisions the CMake generator makes while it walks a context's group
 * tree and its component list: which groups are pruned, the target name,
 * parent and scope of each kept group, the abstraction bundle handed to its
 * children, the abstraction library it links, and how the context's
 * build-group list and global library list grow. The CMake text itself is
 * not modelled: each kept group or component yields one decision record.
 */
module ContextLists {
  import opened Wrappers
  import opened Utils
  import opened BuildContent

  // ---------------------------------------------------------------------------
  // Walk state and decision records
  // ---------------------------------------------------------------------------

  /** The parts of the context the walk updates. */
  datatype WalkState = WalkState(
    languages: seq<Language>, preIncludeGlobal: seq<string>, buildGroups: seq<string>, libraryGlobal: seq<string>)

  function StateOf(c: Cbuild): WalkState
    reads c
  {
    WalkState(c.languages, c.preIncludeGlobal, c.buildGroups, c.libraryGlobal)
  }

  /** What the generator decides for one kept group. */
  datatype GroupTarget = GroupTarget(
    name: string, parentName: string, scope: Scope, bundle: CompilerAbstractions, libraries: seq<string>)

  /** What the generator decides for one component; the bundle is present when the component has its own. */
  datatype ComponentTarget = ComponentTarget(
    name: string, scope: Scope, bundle: Option<CompilerAbstractions>, libraries: seq<string>)

  // ---------------------------------------------------------------------------
  // Per-node decisions (contextlists.go:195-241, 318-328)
  // ---------------------------------------------------------------------------

  /**
   * A group is skipped when it has no child groups and its classification
   * produced no source, include, library or object.
   */
  predicate Pruned(b: BuildFiles, g: Group)
    ensures g.groups != [] ==> !Pruned(b, g)
    ensures Pruned(b, g) ==> SourceLanguages(b) == [] && b.library + b.objects == []
  {
    SourceLanguagesFacts(b);
    assert |SourceLanguages(b)| > 0 ==> SourceLanguages(b)[0] in b.source;
    g.groups == [] && b.source == map[] && b.includes == map[] && b.library == [] && b.objects == []
  }

  /**
   * The target name and the parent name of a group: a first-level group is
   * `Group_<group>` under `${CONTEXT}`, a nested one `<parent>_<group>` under
   * its parent, the group name sanitised either way.
   */
  function GroupNames(parent: string, group: string): (r: (string, string))
    ensures parent == "" ==> r == ("Group_" + ReplaceDelimiters(group), "${CONTEXT}")
    ensures parent != "" ==> r == (parent + "_" + ReplaceDelimiters(group), parent)
  {
    var tail := ReplaceDelimiters(group);
    var name := parent + "_" + tail;
    if |parent| == 0 then
      assert name == "_" + tail;
      assert "Group" + ("_" + tail) == "Group_" + tail;
      ("Group" + name, "${CONTEXT}")
    else (name, parent)
  }

  /** A nested group's name extends its parent's name, so a target is never named like its parent. */
  lemma NestedNameExtendsParent(parent: string, group: string)
    requires parent != ""
    ensures parent + "_" <= GroupNames(parent, group).0
    ensures GroupNames(parent, group).0 != GroupNames(parent, group).1
  {
    var name := GroupNames(parent, group).0;
    assert name == (parent + "_") + ReplaceDelimiters(group);
    assert |name| > |parent|;
  }

  /** The target's scope: INTERFACE for an interface-only file list, PUBLIC otherwise. */
  function TargetScope(b: BuildFiles): (r: Scope)
    ensures r != Private
    ensures r == Interface <==> b.isInterface
  {
    if b.isInterface then Interface else Public
  }

  /** The languages that have sources, in the fixed order ASM, C, CXX, "C,CXX", ALL. */
  function SourceLanguages(b: BuildFiles): seq<Language>
  {
    KeysInOrder(LanguageOrder, b.source)
  }

  const LanguageOrder := [Asm, C, Cxx, CAndCxx, All]

  /** Every language that has sources is listed, once. */
  lemma SourceLanguagesFacts(b: BuildFiles)
    ensures forall l :: l in SourceLanguages(b) <==> l in b.source
    ensures NoDup(SourceLanguages(b))
  {
    var order := LanguageOrder;
    forall l: Language ensures l in order {
      match l
      case Asm => assert order[0] == l;
      case C => assert order[1] == l;
      case Cxx => assert order[2] == l;
      case CAndCxx => assert order[3] == l;
      case All => assert order[4] == l;
    }
    assert NoDup(order) by {
      forall i, j | 0 <= i < j < |order| ensures order[i] != order[j] {
      }
    }
    KeysInOrderFacts(order, b.source);
  }

  /** The elements of `order` that are keys of `m`, in the order of `order`. */
  function KeysInOrder(order: seq<Language>, m: map<Language, seq<string>>): seq<Language>
  {
    if order == [] then []
    else
      var r := KeysInOrder(order[..|order| - 1], m);
      if order[|order| - 1] in m then r + [order[|order| - 1]] else r
  }

  lemma {:induction false} KeysInOrderFacts(order: seq<Language>, m: map<Language, seq<string>>)
    ensures forall l :: l in KeysInOrder(order, m) <==> l in order && l in m
    ensures NoDup(order) ==> NoDup(KeysInOrder(order, m))
  {
    if order != [] {
      var init := order[..|order| - 1];
      var l := order[|order| - 1];
      KeysInOrderFacts(init, m);
      assert forall x :: x in init ==> x in order;
      assert order == init + [l];
      if NoDup(order) {
        assert l !in init;
        assert NoDup(init);
      }
    }
  }

  /**
   * The bundle handed to the children: the group's abstractions over the
   * parent's when the group has any for the context's languages so far,
   * and the empty bundle otherwise.
   */
  function Bundle(parentAbs: CompilerAbstractions, groupAbs: CompilerAbstractions, languages: seq<Language>): (r: CompilerAbstractions)
    ensures EmptyOver(groupAbs, languages) ==> r == NoAbstractions
    ensures !EmptyOver(groupAbs, languages) ==> !EmptyOver(r, languages)
    ensures !EmptyOver(groupAbs, languages) ==>
      forall l :: IsAbstractionEmpty(r, l) <==> IsAbstractionEmpty(parentAbs, l) && IsAbstractionEmpty(groupAbs, l)
  {
    InheritEmptiness(parentAbs, groupAbs, languages);
    if !EmptyOver(groupAbs, languages) then InheritCompilerAbstractions(parentAbs, groupAbs) else NoAbstractions
  }

  /**
   * Without abstractions of its own the group hands down nothing, even when
   * its parent had a bundle; with them, its bundle is empty for a language
   * only where both its own and its parent's abstractions are.
   */
  lemma BundleFacts(parentAbs: CompilerAbstractions, groupAbs: CompilerAbstractions, languages: seq<Language>, l: Language)
    ensures EmptyOver(groupAbs, languages) ==> Bundle(parentAbs, groupAbs, languages) == NoAbstractions
    ensures !EmptyOver(groupAbs, languages) ==>
      (IsAbstractionEmpty(Bundle(parentAbs, groupAbs, languages), l) <==>
        IsAbstractionEmpty(parentAbs, l) && IsAbstractionEmpty(groupAbs, l))
    ensures !EmptyOver(groupAbs, languages) ==> !EmptyOver(Bundle(parentAbs, groupAbs, languages), languages)
  {
    InheritEmptiness(parentAbs, groupAbs, languages);
  }

  /**
   * The abstraction library a group links: none for an interface or when a
   * file has abstractions of its own; otherwise its own `_ABSTRACTIONS`
   * library when it has abstractions for its source languages, else the
   * parent's when the parent bundle has some, else none.
   */
  function GroupAbstractionLink(isInterface: bool, hasFileAbs: bool, groupAbs: CompilerAbstractions,
                                parentAbs: CompilerAbstractions, name: string, parentName: string,
                                languages: seq<Language>): (r: seq<string>)
    ensures |r| <= 1
    ensures r == [] <==> isInterface || hasFileAbs || (EmptyOver(groupAbs, languages) && EmptyOver(parentAbs, languages))
    ensures r != [] && !EmptyOver(groupAbs, languages) ==> r[0] == name + "_ABSTRACTIONS"
    ensures r != [] && EmptyOver(groupAbs, languages) ==> r[0] == parentName + "_ABSTRACTIONS"
  {
    if !isInterface && !hasFileAbs then
      if !EmptyOver(groupAbs, languages) then [name + "_ABSTRACTIONS"]
      else if !EmptyOver(parentAbs, languages) then [parentName + "_ABSTRACTIONS"]
      else []
    else []
  }

  /**
   * The abstraction library a component links: its own when it has
   * abstractions for its source languages, else the context's when the
   * context-level abstractions have some, else none.
   */
  function ComponentAbstractionLink(componentAbs: CompilerAbstractions, globalAbs: CompilerAbstractions,
                                    name: string, languages: seq<Language>): (r: seq<string>)
    ensures |r| <= 1
    ensures r == [] <==> EmptyOver(componentAbs, languages) && EmptyOver(globalAbs, languages)
    ensures r != [] && !EmptyOver(componentAbs, languages) ==> r[0] == name + "_ABSTRACTIONS"
    ensures r != [] && EmptyOver(componentAbs, languages) ==> r[0] == "${CONTEXT}_ABSTRACTIONS"
  {
    if !EmptyOver(componentAbs, languages) then [name + "_ABSTRACTIONS"]
    else if !EmptyOver(globalAbs, languages) then ["${CONTEXT}_ABSTRACTIONS"]
    else []
  }

  /** A component, unlike a group, links an abstraction library whether or not it is an interface. */
  lemma ComponentLinksLikeGroup(componentAbs: CompilerAbstractions, globalAbs: CompilerAbstractions,
                                name: string, languages: seq<Language>)
    ensures ComponentAbstractionLink(componentAbs, globalAbs, name, languages) ==
      GroupAbstractionLink(false, false, componentAbs, globalAbs, name, "${CONTEXT}", languages)
  {
    assert "${CONTEXT}" + "_ABSTRACTIONS" == "${CONTEXT}_ABSTRACTIONS";
  }

  /** The source files with custom options get a target each, `<group target>_<file>`, in file order. */
  function CustomTargets(name: string, files: seq<FileEntry>, custom: FileEntry -> bool): seq<string>
  {
    if files == [] then []
    else
      var file := files[|files| - 1];
      var init := CustomTargets(name, files[..|files| - 1], custom);
      if Contains(file.category, "source") && custom(file) then init + [name + "_" + ReplaceDelimiters(file.file)] else init
  }

  // ---------------------------------------------------------------------------
  // The group walk (contextlists.go:189-294)
  // ---------------------------------------------------------------------------

  /** The classification of a group's files updates the context's languages and global pre-includes. */
  function AfterClassify(s: WalkState, root: string, files: seq<FileEntry>): WalkState
  {
    s.(languages := RegisterSources(s.languages, files),
       preIncludeGlobal := s.preIncludeGlobal + Collect(files, root, "preIncludeGlobal"))
  }

  /**
   * The decision record of a kept group; `languages` are the context's
   * languages once the group's own files are registered.
   */
  function GroupTargetOf(languages: seq<Language>, root: string, parent: string, g: Group,
                         parentAbs: CompilerAbstractions): (t: GroupTarget)
    ensures t.scope != Private
    ensures (t.name, t.parentName) == GroupNames(parent, g.group)
    ensures t.scope == Interface <==> forall i :: 0 <= i < |g.files| ==> !CompilesSource(g.files[i])
  {
    var b := Classify(g.files, root);
    var names := GroupNames(parent, g.group);
    var link := GroupAbstractionLink(b.isInterface, AnyFileAbstractions(g.files), g.abstractions, parentAbs,
                                     names.0, names.1, SourceLanguages(b));
    GroupTarget(names.0, names.1, TargetScope(b), Bundle(parentAbs, g.abstractions, languages),
                link + b.library + b.objects)
  }

  /**
   * A group links its own libraries and objects last, after at most one
   * abstraction target.
   */
  lemma GroupTargetLibraries(languages: seq<Language>, root: string, parent: string, g: Group,
                             parentAbs: CompilerAbstractions)
    ensures var t := GroupTargetOf(languages, root, parent, g, parentAbs);
      var lib := Classify(g.files, root).library + Classify(g.files, root).objects;
      |lib| <= |t.libraries| <= |lib| + 1 && t.libraries[|t.libraries| - |lib|..] == lib
  {
    var b := Classify(g.files, root);
    var names := GroupNames(parent, g.group);
    var link := GroupAbstractionLink(b.isInterface, AnyFileAbstractions(g.files), g.abstractions, parentAbs,
                                     names.0, names.1, SourceLanguages(b));
    LinkedLast(link, b.library, b.objects);
  }

  /**
   * Proof helper with no counterpart in the generator: what is appended
   * after a prefix of at most one element is the suffix. It keeps the
   * sequence reasoning of GroupTargetLibraries apart from the classification.
   */
  lemma LinkedLast(link: seq<string>, library: seq<string>, objects: seq<string>)
    requires |link| <= 1
    ensures var all := link + library + objects;
      |library + objects| <= |all| <= |library + objects| + 1 && all[|all| - |library + objects|..] == library + objects
  {
    assert link + library + objects == link + (library + objects);
  }

  /** Entering a kept group: its file libraries become global and its custom file targets are listed. */
  function EnterGroup(s: WalkState, root: string, name: string, g: Group, custom: FileEntry -> bool): WalkState
  {
    s.(libraryGlobal := s.libraryGlobal + Classify(g.files, root).library,
       buildGroups := s.buildGroups + CustomTargets(name, g.files, custom))
  }

  /** One group: its decisions, then its children's, then its own name on the build-group list. */
  function WalkGroup(s: WalkState, root: string, parent: string, g: Group, parentAbs: CompilerAbstractions,
                     custom: FileEntry -> bool): (r: (WalkState, seq<GroupTarget>))
    ensures s.buildGroups <= r.0.buildGroups && s.libraryGlobal <= r.0.libraryGlobal
    ensures s.preIncludeGlobal <= r.0.preIncludeGlobal
    ensures r.1 == [] <==> Pruned(Classify(g.files, root), g)
    decreases g
  {
    var s1 := AfterClassify(s, root, g.files);
    if Pruned(Classify(g.files, root), g) then (s1, [])
    else
      var t := GroupTargetOf(s1.languages, root, parent, g, parentAbs);
      var children := WalkGroups(EnterGroup(s1, root, t.name, g, custom), root, t.name, g.groups, t.bundle, custom);
      (children.0.(buildGroups := children.0.buildGroups + [t.name]), [t] + children.1)
  }

  /** The groups of one level, in order. */
  function WalkGroups(s: WalkState, root: string, parent: string, gs: seq<Group>, parentAbs: CompilerAbstractions,
                      custom: FileEntry -> bool): (r: (WalkState, seq<GroupTarget>))
    ensures s.buildGroups <= r.0.buildGroups && s.libraryGlobal <= r.0.libraryGlobal
    ensures s.preIncludeGlobal <= r.0.preIncludeGlobal
    decreases gs
  {
    if gs == [] then (s, [])
    else
      var before := WalkGroups(s, root, parent, gs[..|gs| - 1], parentAbs, custom);
      var last := WalkGroup(before.0, root, parent, gs[|gs| - 1], parentAbs, custom);
      (last.0, before.1 + last.1)
  }

  /** CMakeCreateGroupRecursively: walk the groups of one level, recursing into the kept ones. */
  method CreateGroupRecursively(c: Cbuild, parent: string, groups: seq<Group>, parentAbs: CompilerAbstractions,
                                custom: FileEntry -> bool) returns (targets: seq<GroupTarget>)
    modifies c
    ensures (StateOf(c), targets) == WalkGroups(old(StateOf(c)), c.contextRoot, parent, groups, parentAbs, custom)
    decreases groups
  {
    targets := [];
    for i := 0 to |groups|
      invariant (StateOf(c), targets) == WalkGroups(old(StateOf(c)), c.contextRoot, parent, groups[..i], parentAbs, custom)
    {
      assert groups[..i + 1][..i] == groups[..i];
      var t := CreateGroup(c, parent, groups[i], parentAbs, custom);
      targets := targets + t;
    }
    assert groups[..|groups|] == groups;
  }

  /** The body of the group loop for one group. */
  method CreateGroup(c: Cbuild, parent: string, group: Group, parentAbs: CompilerAbstractions,
                     custom: FileEntry -> bool) returns (targets: seq<GroupTarget>)
    modifies c
    ensures (StateOf(c), targets) == WalkGroup(old(StateOf(c)), c.contextRoot, parent, group, parentAbs, custom)
    decreases group
  {
    var b := c.ClassifyFiles(group.files);
    var hasChildren := |group.groups| > 0;
    if !hasChildren && |b.source| == 0 && |b.includes| == 0 && |b.library| == 0 && |b.objects| == 0 {
      return [];
    }
    var t := GroupDecision(c.languages, c.contextRoot, parent, group, parentAbs, b);
    c.libraryGlobal := c.libraryGlobal + b.library;
    AddCustomFileTargets(c, t.name, group.files, custom);
    var children: seq<GroupTarget> := [];
    if hasChildren {
      children := CreateGroupRecursively(c, t.name, group.groups, t.bundle, custom);
    }
    c.buildGroups := c.buildGroups + [t.name];
    targets := [t] + children;
  }

  /** The decisions for a kept group whose files classified as `b`. */
  method GroupDecision(languages: seq<Language>, root: string, parent: string, group: Group,
                       parentAbs: CompilerAbstractions, b: BuildFiles) returns (t: GroupTarget)
    requires b == Classify(group.files, root)
    ensures t == GroupTargetOf(languages, root, parent, group, parentAbs)
  {
    var name := parent + "_" + ReplaceDelimiters(group.group);
    var parentName := parent;
    if |parent| == 0 {
      name := "Group" + name;
      parentName := "${CONTEXT}";
    }
    var scope := Public;
    if b.isInterface {
      scope := Interface;
    }
    var hasFileAbstractions := HasFileAbstractions(group.files);
    var sourceLanguages := SourceLanguages(b);
    var abstractions := NoAbstractions;
    var groupEmpty := AreAbstractionsEmpty(group.abstractions, languages);
    if !groupEmpty {
      abstractions := InheritCompilerAbstractions(parentAbs, group.abstractions);
    }
    var libraries := GroupLink(b.isInterface, hasFileAbstractions, group.abstractions, parentAbs, name, parentName,
                               sourceLanguages);
    libraries := libraries + b.library;
    libraries := libraries + b.objects;
    t := GroupTarget(name, parentName, scope, abstractions, libraries);
  }

  /** The library choice of a group, with the early exits of the emptiness scans. */
  method GroupLink(isInterface: bool, hasFileAbs: bool, groupAbs: CompilerAbstractions, parentAbs: CompilerAbstractions,
                   name: string, parentName: string, languages: seq<Language>) returns (libraries: seq<string>)
    ensures libraries == GroupAbstractionLink(isInterface, hasFileAbs, groupAbs, parentAbs, name, parentName, languages)
  {
    libraries := [];
    if !isInterface && !hasFileAbs {
      var ownEmpty := AreAbstractionsEmpty(groupAbs, languages);
      if !ownEmpty {
        libraries := libraries + [name + "_ABSTRACTIONS"];
      } else {
        var parentEmpty := AreAbstractionsEmpty(parentAbs, languages);
        if !parentEmpty {
          libraries := libraries + [parentName + "_ABSTRACTIONS"];
        }
      }
    }
  }

  /** The file-level loop: a source file with custom options adds its own target name. */
  method AddCustomFileTargets(c: Cbuild, name: string, files: seq<FileEntry>, custom: FileEntry -> bool)
    modifies c`buildGroups
    ensures c.buildGroups == old(c.buildGroups) + CustomTargets(name, files, custom)
  {
    for k := 0 to |files|
      invariant c.buildGroups == old(c.buildGroups) + CustomTargets(name, files[..k], custom)
    {
      assert files[..k + 1][..k] == files[..k];
      if Contains(files[k].category, "source") {
        if custom(files[k]) {
          c.buildGroups := c.buildGroups + [name + "_" + ReplaceDelimiters(files[k].file)];
        }
      }
    }
    assert files[..|files|] == files;
  }

  // ---------------------------------------------------------------------------
  // What the group walk adds, independently of the context state
  // ---------------------------------------------------------------------------

  /** The build-group names of a group: custom file targets, then the descendants', then its own; none when pruned. */
  function PostOrder(root: string, parent: string, g: Group, custom: FileEntry -> bool): seq<string>
    decreases g
  {
    if Pruned(Classify(g.files, root), g) then []
    else
      var name := GroupNames(parent, g.group).0;
      CustomTargets(name, g.files, custom) + PostOrderAll(root, name, g.groups, custom) + [name]
  }

  function PostOrderAll(root: string, parent: string, gs: seq<Group>, custom: FileEntry -> bool): seq<string>
    decreases gs
  {
    if gs == [] then []
    else PostOrderAll(root, parent, gs[..|gs| - 1], custom) + PostOrder(root, parent, gs[|gs| - 1], custom)
  }

  /** The libraries of the groups' files, each group's before its children's. */
  function GroupLibraries(root: string, g: Group): seq<string>
    decreases g
  {
    Classify(g.files, root).library + GroupLibrariesAll(root, g.groups)
  }

  function GroupLibrariesAll(root: string, gs: seq<Group>): seq<string>
    decreases gs
  {
    if gs == [] then [] else GroupLibrariesAll(root, gs[..|gs| - 1]) + GroupLibraries(root, gs[|gs| - 1])
  }

  /** The names of the kept groups, each group's before its children's. */
  function PreOrder(root: string, parent: string, g: Group): seq<string>
    decreases g
  {
    if Pruned(Classify(g.files, root), g) then []
    else
      var name := GroupNames(parent, g.group).0;
      [name] + PreOrderAll(root, name, g.groups)
  }

  function PreOrderAll(root: string, parent: string, gs: seq<Group>): seq<string>
    decreases gs
  {
    if gs == [] then [] else PreOrderAll(root, parent, gs[..|gs| - 1]) + PreOrder(root, parent, gs[|gs| - 1])
  }

  function TargetNames(ts: seq<GroupTarget>): seq<string>
  {
    if ts == [] then [] else TargetNames(ts[..|ts| - 1]) + [ts[|ts| - 1].name]
  }

  /**
   * Proof helper with no counterpart in the generator: regrouping a
   * concatenation. The walk lemmas call it rather than assert it inline, so
   * that each regrouping is proved apart from their context.
   */
  lemma AppendAssoc<T>(a: seq<T>, b: seq<T>, c: seq<T>)
    ensures (a + b) + c == a + (b + c)
  {
  }

  lemma {:induction false} TargetNamesAppend(a: seq<GroupTarget>, b: seq<GroupTarget>)
    ensures TargetNames(a + b) == TargetNames(a) + TargetNames(b)
    decreases |b|
  {
    if b == [] {
      assert a + b == a;
    } else {
      var init := b[..|b| - 1];
      var last := b[|b| - 1];
      assert (a + b)[..|a + b| - 1] == a + init;
      assert (a + b)[|a + b| - 1] == last;
      TargetNamesAppend(a, init);
      calc {
        TargetNames(a + b);
        TargetNames(a + init) + [last.name];
        (TargetNames(a) + TargetNames(init)) + [last.name];
        TargetNames(a) + (TargetNames(init) + [last.name]);
        TargetNames(a) + TargetNames(b);
      }
    }
  }

  /** The walk adds to the build-group list exactly the post-order of the kept groups. */
  lemma {:induction false} WalkGroupBuildGroups(s: WalkState, root: string, parent: string, g: Group,
                                                parentAbs: CompilerAbstractions, custom: FileEntry -> bool)
    ensures WalkGroup(s, root, parent, g, parentAbs, custom).0.buildGroups == s.buildGroups + PostOrder(root, parent, g, custom)
    decreases g
  {
    var b := Classify(g.files, root);
    if !Pruned(b, g) {
      var s1 := AfterClassify(s, root, g.files);
      var t := GroupTargetOf(s1.languages, root, parent, g, parentAbs);
      var name := t.name;
      var bundle := t.bundle;
      var s2 := EnterGroup(s1, root, name, g, custom);
      WalkGroupsBuildGroups(s2, root, name, g.groups, bundle, custom);
      var post := PostOrderAll(root, name, g.groups, custom);
      AppendAssoc(s.buildGroups, CustomTargets(name, g.files, custom), post);
      AppendAssoc(s.buildGroups, CustomTargets(name, g.files, custom) + post, [name]);
    }
  }

  lemma {:induction false} WalkGroupsBuildGroups(s: WalkState, root: string, parent: string, gs: seq<Group>,
                                                 parentAbs: CompilerAbstractions, custom: FileEntry -> bool)
    ensures WalkGroups(s, root, parent, gs, parentAbs, custom).0.buildGroups == s.buildGroups + PostOrderAll(root, parent, gs, custom)
    decreases gs
  {
    if gs != [] {
      var init := gs[..|gs| - 1];
      WalkGroupsBuildGroups(s, root, parent, init, parentAbs, custom);
      var before := WalkGroups(s, root, parent, init, parentAbs, custom);
      WalkGroupBuildGroups(before.0, root, parent, gs[|gs| - 1], parentAbs, custom);
      AppendAssoc(s.buildGroups, PostOrderAll(root, parent, init, custom), PostOrder(root, parent, gs[|gs| - 1], custom));
    }
  }

  /** The walk adds to the global libraries exactly the groups' file libraries, in walk order. */
  lemma {:induction false} WalkGroupLibraries(s: WalkState, root: string, parent: string, g: Group,
                                              parentAbs: CompilerAbstractions, custom: FileEntry -> bool)
    ensures WalkGroup(s, root, parent, g, parentAbs, custom).0.libraryGlobal == s.libraryGlobal + GroupLibraries(root, g)
    decreases g
  {
    var b := Classify(g.files, root);
    if !Pruned(b, g) {
      var s1 := AfterClassify(s, root, g.files);
      var t := GroupTargetOf(s1.languages, root, parent, g, parentAbs);
      var name := t.name;
      var bundle := t.bundle;
      var s2 := EnterGroup(s1, root, name, g, custom);
      WalkGroupsLibraries(s2, root, name, g.groups, bundle, custom);
      AppendAssoc(s.libraryGlobal, b.library, GroupLibrariesAll(root, g.groups));
    } else {
      assert g.groups == [];
    }
  }

  lemma {:induction false} WalkGroupsLibraries(s: WalkState, root: string, parent: string, gs: seq<Group>,
                                               parentAbs: CompilerAbstractions, custom: FileEntry -> bool)
    ensures WalkGroups(s, root, parent, gs, parentAbs, custom).0.libraryGlobal == s.libraryGlobal + GroupLibrariesAll(root, gs)
    decreases gs
  {
    if gs != [] {
      var init := gs[..|gs| - 1];
      WalkGroupsLibraries(s, root, parent, init, parentAbs, custom);
      var before := WalkGroups(s, root, parent, init, parentAbs, custom);
      WalkGroupLibraries(before.0, root, parent, gs[|gs| - 1], parentAbs, custom);
      AppendAssoc(s.libraryGlobal, GroupLibrariesAll(root, init), GroupLibraries(root, gs[|gs| - 1]));
    }
  }

  /** The targets of the walk are the kept groups, in pre-order. */
  lemma {:induction false} WalkGroupTargets(s: WalkState, root: string, parent: string, g: Group,
                                            parentAbs: CompilerAbstractions, custom: FileEntry -> bool)
    ensures TargetNames(WalkGroup(s, root, parent, g, parentAbs, custom).1) == PreOrder(root, parent, g)
    decreases g
  {
    var b := Classify(g.files, root);
    if !Pruned(b, g) {
      var s1 := AfterClassify(s, root, g.files);
      var t := GroupTargetOf(s1.languages, root, parent, g, parentAbs);
      var s2 := EnterGroup(s1, root, t.name, g, custom);
      WalkGroupsTargets(s2, root, t.name, g.groups, t.bundle, custom);
      var children := WalkGroups(s2, root, t.name, g.groups, t.bundle, custom);
      TargetNamesAppend([t], children.1);
      assert TargetNames([t]) == [t.name];
    }
  }

  lemma {:induction false} WalkGroupsTargets(s: WalkState, root: string, parent: string, gs: seq<Group>,
                                             parentAbs: CompilerAbstractions, custom: FileEntry -> bool)
    ensures TargetNames(WalkGroups(s, root, parent, gs, parentAbs, custom).1) == PreOrderAll(root, parent, gs)
    decreases gs
  {
    if gs != [] {
      var init := gs[..|gs| - 1];
      WalkGroupsTargets(s, root, parent, init, parentAbs, custom);
      var before := WalkGroups(s, root, parent, init, parentAbs, custom);
      WalkGroupTargets(before.0, root, parent, gs[|gs| - 1], parentAbs, custom);
      var last := WalkGroup(before.0, root, parent, gs[|gs| - 1], parentAbs, custom);
      TargetNamesAppend(before.1, last.1);
    }
  }

  /** A kept group's own name is the last build-group entry it adds, after all of its descendants'. */
  lemma KeptGroupNameLast(root: string, parent: string, g: Group, custom: FileEntry -> bool)
    requires !Pruned(Classify(g.files, root), g)
    ensures var p := PostOrder(root, parent, g, custom);
      |p| > 0 && p[|p| - 1] == GroupNames(parent, g.group).0 &&
      p[..|p| - 1] == CustomTargets(GroupNames(parent, g.group).0, g.files, custom) +
                      PostOrderAll(root, GroupNames(parent, g.group).0, g.groups, custom)
  {
  }

  /** A group with children is never pruned; a pruned group adds no build group, target or library. */
  lemma PrunedLeavesNoTrace(s: WalkState, root: string, parent: string, g: Group,
                            parentAbs: CompilerAbstractions, custom: FileEntry -> bool)
    ensures |g.groups| > 0 ==> !Pruned(Classify(g.files, root), g)
    ensures Pruned(Classify(g.files, root), g) ==>
      var r := WalkGroup(s, root, parent, g, parentAbs, custom);
      r.1 == [] && r.0.buildGroups == s.buildGroups && r.0.libraryGlobal == s.libraryGlobal &&
      GroupLibraries(root, g) == []
  {
  }

  // ---------------------------------------------------------------------------
  // Components (contextlists.go:296-357)
  // ---------------------------------------------------------------------------

  /** The decision record of one component. */
  function ComponentTargetOf(root: string, globalAbs: CompilerAbstractions, comp: Component): (t: ComponentTarget)
    ensures t.name == ReplaceDelimiters(comp.component)
    ensures t.scope == Interface <==> Classify(comp.files, root).isInterface
    ensures t.scope != Private
    ensures t.bundle.Some? <==> !EmptyOver(comp.abstractions, SourceLanguages(Classify(comp.files, root)))
    ensures var lib := Classify(comp.files, root).library + Classify(comp.files, root).objects;
      |lib| <= |t.libraries| <= |lib| + 1 && t.libraries[|t.libraries| - |lib|..] == lib
  {
    var b := Classify(comp.files, root);
    var name := ReplaceDelimiters(comp.component);
    var languages := SourceLanguages(b);
    var libraries := ComponentAbstractionLink(comp.abstractions, globalAbs, name, languages) + b.library + b.objects;
    ComponentTarget(name, TargetScope(b), ComponentBundle(globalAbs, comp.abstractions, languages), libraries)
  }

  /** A component hands its own abstractions, over the context's, to its target when it has any for its languages. */
  function ComponentBundle(globalAbs: CompilerAbstractions, componentAbs: CompilerAbstractions,
                           languages: seq<Language>): Option<CompilerAbstractions>
  {
    if !EmptyOver(componentAbs, languages) then Some(InheritCompilerAbstractions(globalAbs, componentAbs)) else None
  }

  /** What one component does to the context: its files are registered and its file libraries become global. */
  function ComponentState(s: WalkState, root: string, comp: Component): WalkState
  {
    var s1 := AfterClassify(s, root, comp.files);
    s1.(libraryGlobal := s1.libraryGlobal + Classify(comp.files, root).library)
  }

  /** What the component loop does to the context, one component after another. */
  function ComponentsState(s: WalkState, root: string, comps: seq<Component>): WalkState
  {
    if comps == [] then s
    else ComponentState(ComponentsState(s, root, comps[..|comps| - 1]), root, comps[|comps| - 1])
  }

  /** The libraries of the components' files, in component order. */
  function ComponentLibraries(root: string, comps: seq<Component>): seq<string>
  {
    if comps == [] then [] else ComponentLibraries(root, comps[..|comps| - 1]) + Classify(comps[|comps| - 1].files, root).library
  }

  /** The component loop leaves the build-group list alone. */
  lemma {:induction false} ComponentsKeepBuildGroups(s: WalkState, root: string, comps: seq<Component>)
    ensures ComponentsState(s, root, comps).buildGroups == s.buildGroups
  {
    if comps != [] {
      ComponentsKeepBuildGroups(s, root, comps[..|comps| - 1]);
    }
  }

  /** The component loop adds to the global libraries exactly the components' file libraries, in order. */
  lemma {:induction false} ComponentsAddLibraries(s: WalkState, root: string, comps: seq<Component>)
    ensures ComponentsState(s, root, comps).libraryGlobal == s.libraryGlobal + ComponentLibraries(root, comps)
  {
    if comps != [] {
      var init := comps[..|comps| - 1];
      ComponentsAddLibraries(s, root, init);
      AppendAssoc(s.libraryGlobal, ComponentLibraries(root, init), Classify(comps[|comps| - 1].files, root).library);
    }
  }

  /** `targets` are the decisions for `comps`, one each, in order. */
  predicate DecidedFor(root: string, globalAbs: CompilerAbstractions, comps: seq<Component>, targets: seq<ComponentTarget>)
  {
    |targets| == |comps| && forall j :: 0 <= j < |targets| ==> targets[j] == ComponentTargetOf(root, globalAbs, comps[j])
  }

  lemma DecidedStep(root: string, globalAbs: CompilerAbstractions, comps: seq<Component>, i: nat,
                    targets: seq<ComponentTarget>)
    requires i < |comps| && DecidedFor(root, globalAbs, comps[..i], targets)
    ensures DecidedFor(root, globalAbs, comps[..i + 1], targets + [ComponentTargetOf(root, globalAbs, comps[i])])
  {
  }

  /**
   * CMakeCreateComponents: one decision record per component, in order;
   * each depends only on its component and the context's abstractions, not
   * on the components before it.
   */
  method CreateComponents(c: Cbuild) returns (targets: seq<ComponentTarget>)
    modifies c
    ensures StateOf(c) == ComponentsState(old(StateOf(c)), c.contextRoot, c.components)
    ensures DecidedFor(c.contextRoot, c.abstractions, c.components, targets)
  {
    targets := [];
    var comps := c.components;
    for i := 0 to |comps|
      invariant StateOf(c) == ComponentsState(old(StateOf(c)), c.contextRoot, comps[..i])
      invariant DecidedFor(c.contextRoot, c.abstractions, comps[..i], targets)
    {
      assert comps[..i + 1][..i] == comps[..i];
      DecidedStep(c.contextRoot, c.abstractions, comps, i, targets);
      var t := CreateComponent(c, comps[i]);
      targets := targets + [t];
    }
    assert comps[..|comps|] == comps;
  }

  /** The body of the component loop for one component. */
  method CreateComponent(c: Cbuild, comp: Component) returns (t: ComponentTarget)
    modifies c
    ensures StateOf(c) == ComponentState(old(StateOf(c)), c.contextRoot, comp)
    ensures t == ComponentTargetOf(c.contextRoot, c.abstractions, comp)
  {
    var b := c.ClassifyFiles(comp.files);
    t := ComponentDecision(c.contextRoot, c.abstractions, comp, b);
    c.libraryGlobal := c.libraryGlobal + b.library;
  }

  /** The abstraction choice of a component, with the early exits of the emptiness scans. */
  method ComponentLink(globalAbs: CompilerAbstractions, componentAbs: CompilerAbstractions, name: string,
                       languages: seq<Language>) returns (bundle: Option<CompilerAbstractions>, libraries: seq<string>)
    ensures bundle == ComponentBundle(globalAbs, componentAbs, languages)
    ensures libraries == ComponentAbstractionLink(componentAbs, globalAbs, name, languages)
  {
    libraries := [];
    bundle := None;
    var ownEmpty := AreAbstractionsEmpty(componentAbs, languages);
    if !ownEmpty {
      bundle := Some(InheritCompilerAbstractions(globalAbs, componentAbs));
      libraries := libraries + [name + "_ABSTRACTIONS"];
    } else {
      var globalEmpty := AreAbstractionsEmpty(globalAbs, languages);
      if !globalEmpty {
        libraries := libraries + ["${CONTEXT}_ABSTRACTIONS"];
      }
    }
  }

  /** The decisions for a component whose files classified as `b`. */
  method ComponentDecision(root: string, globalAbs: CompilerAbstractions, comp: Component, b: BuildFiles)
    returns (t: ComponentTarget)
    requires b == Classify(comp.files, root)
    ensures t == ComponentTargetOf(root, globalAbs, comp)
  {
    var name := ReplaceDelimiters(comp.component);
    var scope := Public;
    if b.isInterface {
      scope := Interface;
    }
    var bundle, libraries := ComponentLink(globalAbs, comp.abstractions, name, SourceLanguages(b));
    libraries := libraries + b.library;
    libraries := libraries + b.objects;
    t := ComponentTarget(name, scope, bundle, libraries);
  }

  // ---------------------------------------------------------------------------
  // Link libraries (contextlists.go:359-368)
  // ---------------------------------------------------------------------------

  /**
   * GetLinkLibraries: for GCC with more than one library in all, the
   * context's own libraries and the collected ones go between
   * `-Wl,--start-group` and `-Wl,--end-group` so that the linker rescans
   * them; otherwise only the context's own libraries are linked.
   */
  function GetLinkLibraries(c: Cbuild): (r: seq<string>)
    reads c
    ensures c.toolchain == "GCC" && |c.misc.library| + |c.libraryGlobal| > 1 ==>
      |r| == |c.misc.library| + |c.libraryGlobal| + 2 &&
      r[0] == "-Wl,--start-group" && r[|r| - 1] == "-Wl,--end-group" &&
      r[1..|r| - 1] == c.misc.library + c.libraryGlobal
    ensures !(c.toolchain == "GCC" && |c.misc.library| + |c.libraryGlobal| > 1) ==> r == c.misc.library
  {
    var libraries := c.misc.library;
    if c.toolchain == "GCC" && |c.misc.library| + |c.libraryGlobal| > 1 then
      ["-Wl,--start-group"] + (libraries + c.libraryGlobal) + ["-Wl,--end-group"]
    else libraries
  }
}
