# cbuild2cmake decisions, in Dafny

cbuild2cmake turns the parsed build description of a CMSIS solution into
CMake lists. This project models the decisions that it makes before any
CMake text is written, and proves what those decisions promise:

- **Utils** (`utils.dfy`): the ordered-list and define helpers everything
  else uses.
  - Append-if-absent, the last element containing a substring, and
    intersection in the order of the second list.
  - Removal of the first occurrence of each include path or define key.
    It shifts the caller's array in place.
  - Concatenation of define lists and key/value extraction from one
    define, with the integer rendering of `strconv.Itoa`.
- **Paths** (`paths.dfy`): the lexical path helpers the classifier needs
  (`Clean`, `Join`, `Dir`, `Ext`).
- **BuildContent** (`buildcontent.dfy`): the per-file decisions.
  - The language of a file: by category, then the language field, then
    the extension, then `ALL`.
  - Its include scope and the identifier sanitiser `ReplaceDelimiters`.
  - The `${SOLUTION_ROOT}` prefix rule.
  - The field-wise override of compiler abstractions (debug, optimize,
    warnings, C standard, C++ standard) and the emptiness tests on them.
  - The per-file option list and the primary-output selection.
  - `ClassifyFiles`, which sorts a file list into include buckets keyed
    by scope and language, source lists per language, libraries, objects
    and local pre-includes. It also updates the context's language list
    and its global pre-include list. The context is a `Cbuild` class
    whose methods update those fields in place.
- **ContextLists** (`contextlists.dfy`): the walk over a context's group
  tree and component list.
  - Which groups are pruned.
  - The target name, parent and scope of each kept node.
  - The abstraction bundle a group hands to its children and the
    `_ABSTRACTIONS` library it links.
  - How the context's `BuildGroups` (post-order) and `LibraryGlobal`
    lists grow.
  - The GCC link group in `GetLinkLibraries`.

  Each kept node yields a decision record instead of CMake text. The
  methods walk a `Cbuild` object as the generator does, and each is
  proved equal to a recursive specification over a `WalkState` value.
- **Toolchain** (`toolchain.dfy`): the selection loop of
  `ProcessToolchain`. For each context it does the following:
  - It splits `Name@constraint`.
  - It filters the toolchain configuration files and the registered
    installations by name.
  - It sorts both newest first, using an in-place insertion sort on an
    array.
  - It scans for the newest registered version that meets some
    configuration floor and the constraint.
  - It records that version and the newest configuration at or below it
    at the context's index of the `Maker` object's arrays.

  The result is proved against a declarative statement of what is
  selected (`Selected`). The two error messages are modelled exactly.

Versions are (major, minor, patch) triples ordered lexicographically, as
in section 11 of Semantic Versioning 2.0.0. A version constraint is a
parameter `satisfies: (string, Version) -> bool`. The directory scan that
produces the (name, version, path) entries is replaced by sequence
parameters.

## Model

| member | source | states |
|---|---|---|
| Utils.AppendUniquely | pkg/utils/utils.go:17-24 | the loop builds exactly `Appended(list, elements)`, the append-if-absent specification |
| Utils.AppendedPrefix | pkg/utils/utils.go:17-24 | the input list is an unchanged prefix of the result, whose length is at most \|list\| + \|elements\| |
| Utils.AppendedMembers | pkg/utils/utils.go:17-24 | an element is in the result iff it was in the list or in the elements |
| Utils.AppendedAddsOnlyAbsent | pkg/utils/utils.go:19-22 | everything added was absent from the list and the added part has no duplicates, so elements added earlier in the same call count |
| Utils.AppendedTailFromElements | pkg/utils/utils.go:19-22 | each added element comes from the elements and was not in the list |
| Utils.AppendedKeepsNoDup | pkg/utils/utils.go:17-24 | a duplicate-free list stays duplicate-free |
| Utils.AppendedPresentIsNoOp | pkg/utils/utils.go:19-22 | appending elements that are all present changes nothing |
| Utils.AppendedIdempotent | pkg/utils/utils.go:17-24 | appending the same elements a second time is a no-op |
| Utils.AppendedFirstOccurrenceOrder | pkg/utils/utils.go:19-22 | the added elements keep the order of their first occurrence among the elements, whatever was already in the list |
| Utils.AppendedTail | pkg/utils/utils.go:19-22 | everything past the original list comes from the elements |
| Utils.FindLast | pkg/utils/utils.go:26-33 | the result is "" or a list element containing the substring |
| Utils.FindLastNoMatch | pkg/utils/utils.go:26-33 | when no element contains the substring the result is "" |
| Utils.FindLastMatch | pkg/utils/utils.go:26-33 | the result is the element of highest index that contains the substring |
| Utils.ContainsIffOccurs | pkg/utils/utils.go:28 | `strings.Contains` holds iff the substring occurs at some index |
| Utils.Kept | pkg/utils/utils.go:37-45 | the filter keeps exactly the elements that are in the keep set |
| Utils.KeptFirstIndexMonotone | pkg/utils/utils.go:37-45 | filtering preserves the relative order of first occurrences |
| Utils.Intersection | pkg/utils/utils.go:35-47 | exactly the elements of slice2 that occur in slice1, without duplicates, in slice2 order; empty when the lists are disjoint |
| Utils.RemovedIncludesMultiset | pkg/utils/utils.go:49-57 | one occurrence of each delpath is removed and nothing else: the result's multiset is the input's minus the delpaths' |
| Utils.RemovedIncludesAbsent | pkg/utils/utils.go:49-57 | delpaths that are absent leave the list unchanged |
| Utils.RemovedIncludesKeepsOrder | pkg/utils/utils.go:49-57 | the remaining elements keep their relative order (the result is a subsequence of the input) |
| Utils.RemoveFirstPath | pkg/utils/utils.go:51-55 | removing one path takes off exactly one occurrence of it, or nothing when it is absent |
| Utils.RemoveFirstMatchShape | pkg/utils/utils.go:51-55 | one removal shortens the list by at most one and keeps order |
| Utils.IndexWhere | pkg/utils/utils.go:51-52 | the scan returns the index of the first match, or -1 |
| Utils.SpliceOut | pkg/utils/utils.go:53 | `append(x[:i], x[i+1:]...)` shifts the tail left by one in the caller's array and leaves the cells past the old length alone |
| Utils.RemoveFirst | pkg/utils/utils.go:51-55 | the array prefix becomes the list with its first match removed, and the cells from the old length on keep their values |
| Utils.RemoveIncludes | pkg/utils/utils.go:49-57 | the array prefix becomes `RemovedIncludes(old prefix, delpaths)`, and the cells from the old length on keep their values |
| Utils.AppendDefines | pkg/utils/utils.go:59-61 | the result is the defines followed by the elements, of length the sum of the two |
| Utils.RemoveFirstDefine | pkg/utils/utils.go:65-71 | one undefine removes the first define with that key, or nothing when none has it |
| Utils.RemovedDefinesAbsent | pkg/utils/utils.go:63-74 | undefines no define carries leave the list unchanged |
| Utils.RemovedDefinesShape | pkg/utils/utils.go:63-74 | at most one define is removed per undefine, and the rest keep their order |
| Utils.RemoveDefines | pkg/utils/utils.go:63-74 | the array prefix becomes `RemovedDefines(old prefix, undefines)`, and the cells from the old length on keep their values |
| Utils.GetDefine | pkg/utils/utils.go:76-94 | a string define yields (define, ""); a single-entry map yields its key and its string, bool or int value rendered as text; anything else yields ("", "") |
| Utils.NatToDecimal | pkg/utils/utils.go:88-89 | the rendering of a natural number is a non-empty digit string |
| Utils.DecimalRoundTrip | pkg/utils/utils.go:88-89 | a rendered natural number reads back as itself |
| Utils.ItoaRoundTrip | pkg/utils/utils.go:88-89 | `strconv.Itoa` of any integer, sign included, parses back to that integer |
| BuildContent.GetLanguage | pkg/maker/buildcontent.go:58-76 | a mapped category decides the language; otherwise a known language field does; the result is `ALL` only when neither decides, and the mixed C/C++ language arises iff no category decides and the field is "c-cpp" |
| BuildContent.CategoryDecidesLanguage | pkg/maker/buildcontent.go:58-62 | a category in the category map decides the language whatever the language field and path say |
| BuildContent.LanguageFieldDecides | pkg/maker/buildcontent.go:63-66 | otherwise a known language field decides it, whatever the path says |
| BuildContent.ExtensionDecidesLast | pkg/maker/buildcontent.go:67-75 | otherwise the extension decides it, and the result is `ALL` exactly for the unlisted extensions |
| BuildContent.MixedLanguageOnlyFromField | pkg/maker/buildcontent.go:51-66 | the mixed C/C++ language arises iff no category decides and the language field is "c-cpp" |
| BuildContent.GetScope | pkg/maker/buildcontent.go:78-83 | PRIVATE iff the scope is "private" or "hidden", otherwise PUBLIC, never INTERFACE |
| BuildContent.ReplaceDelimiters | pkg/maker/buildcontent.go:85-88 | the result is no longer than the input, empty iff the input is, and contains no delimiter |
| BuildContent.ReplaceDelimitersIdentity | pkg/maker/buildcontent.go:85-88 | a string without delimiters is unchanged |
| BuildContent.ReplaceDelimitersIdempotent | pkg/maker/buildcontent.go:85-88 | sanitising twice is sanitising once |
| BuildContent.ReplaceDelimitersPlainHead | pkg/maker/buildcontent.go:85-88 | a delimiter-free prefix is copied through unchanged |
| BuildContent.ReplaceDelimitersSingle | pkg/maker/buildcontent.go:86 | a single delimiter that does not start `::` or `@>=` becomes one `_` |
| BuildContent.ReplaceDelimitersScope | pkg/maker/buildcontent.go:86 | a leading `::` becomes a single `_` |
| BuildContent.ReplaceDelimitersAtLeast | pkg/maker/buildcontent.go:86 | a leading `@>=` becomes a single `_` |
| BuildContent.AddRootPrefix | pkg/maker/buildcontent.go:366-371 | an input starting with `${` is returned unchanged, any other becomes `${SOLUTION_ROOT}/` followed by the joined base and input |
| BuildContent.AddRootPrefixIdempotent | pkg/maker/buildcontent.go:366-371 | prefixing an already prefixed path changes nothing, whatever the base |
| BuildContent.AddRootPrefixes | pkg/maker/buildcontent.go:373-379 | the result has the input's length and holds the prefixed input element by element |
| BuildContent.IsAbstractionEmpty | pkg/maker/buildcontent.go:329-336 | empty iff debug, optimize and warnings are empty and, for C and C++ only, that language's standard too |
| BuildContent.StandardsCountOnlyForTheirLanguage | pkg/maker/buildcontent.go:329-336 | the C standard counts only for C and the C++ standard only for C++ |
| BuildContent.AreAbstractionsEmpty | pkg/maker/buildcontent.go:320-327 | the early-exit loop returns the conjunction of `IsAbstractionEmpty` over the languages |
| BuildContent.AreAbstractionsEmptyExamples | pkg/maker/buildcontent.go:320-336 | empty for an empty language list; a debug setting counts for any language and a language standard only for its own language |
| BuildContent.InheritCompilerAbstractions | pkg/maker/buildcontent.go:495-512 | each field is the child's or the parent's, and is empty iff both are |
| BuildContent.InheritFieldwise | pkg/maker/buildcontent.go:495-512 | each of the five fields is the child's when non-empty, otherwise the parent's |
| BuildContent.InheritExtremes | pkg/maker/buildcontent.go:495-512 | an empty child yields the parent and a fully set child yields itself |
| BuildContent.InheritIdempotent | pkg/maker/buildcontent.go:495-512 | inheriting twice from the same parent is inheriting once |
| BuildContent.InheritEmptiness | pkg/maker/buildcontent.go:495-512 | the merge is empty for a language iff both parent and child are |
| BuildContent.HasFileAbstractions | pkg/maker/buildcontent.go:536-548 | true iff some file whose category contains "source" has non-empty abstractions for its own language |
| BuildContent.IsCompileMiscEmpty | pkg/maker/buildcontent.go:313-318 | empty iff the assembler, C, C++ and common C/C++ misc lists are all empty, and then a file without abstractions gets no options |
| BuildContent.GetFileOptions | pkg/maker/buildcontent.go:338-355 | every option comes from the misc lists or is the language's options flag, and with abstractions that flag is last |
| BuildContent.FileOptionsPerLanguage | pkg/maker/buildcontent.go:342-353 | an assembler file gets the `asm` misc list, a C file the `c` and common lists, a C++ file the `cpp` and common lists, any other only the flag; `${<LANG>_OPTIONS_FLAGS}` is appended iff there are abstractions |
| BuildContent.FileOptionsOrigin | pkg/maker/buildcontent.go:338-355 | every per-file option comes from the file's misc lists or is the abstraction flags last; an empty misc (`IsCompileMiscEmpty`, lines 313-318) and no abstractions give no options |
| BuildContent.ByProducts | pkg/maker/buildcontent.go:106-123 | the by-products are exactly the outputs of a by-product type |
| BuildContent.Conversions | pkg/maker/buildcontent.go:106-123 | the conversion commands are exactly those of the conversion-type outputs |
| BuildContent.Primary | pkg/maker/buildcontent.go:106-123 | the primary output is the last output of a primary type, or none when there is none |
| BuildContent.OutputFiles | pkg/maker/buildcontent.go:106-123 | the loop returns the by-products, the conversions, and the primary output's file and type, or "" for both when there is none |
| BuildContent.NonTemplates | pkg/maker/buildcontent.go:395-397 | the files classified are exactly those whose attribute is not "template" |
| BuildContent.IncludeCategories | pkg/maker/buildcontent.go:398-413 | exactly the header and include categories go to the include buckets |
| BuildContent.SourceCategories | pkg/maker/buildcontent.go:414-417 | exactly the four source categories go to the source lists |
| BuildContent.SourceCategoriesContainSource | pkg/maker/buildcontent.go:385-391 | every source category contains "source" |
| BuildContent.ListCategories | pkg/maker/buildcontent.go:418-423 | "library", "object" and "preIncludeLocal" go to their own lists and nothing else does |
| BuildContent.GlobalPreIncludeCategory | pkg/maker/buildcontent.go:424-425 | only "preIncludeGlobal" goes to the context's global pre-includes |
| BuildContent.ClassifiedIncludes | pkg/maker/buildcontent.go:398-413 | each include bucket holds its entries in input order without duplicates, and a bucket exists iff it has an entry |
| BuildContent.IncludeStep | pkg/maker/buildcontent.go:398-413 | one header or include file appends its prefixed path to its own bucket only, if absent |
| BuildContent.ClassifiedSources | pkg/maker/buildcontent.go:414-417 | each language's source list is its source files in input order, and the language is a key iff it has a source |
| BuildContent.ClassifiedLists | pkg/maker/buildcontent.go:418-423 | libraries, objects and local pre-includes are the prefixed files of that category in input order |
| BuildContent.ClassifiedIgnoresTemplates | pkg/maker/buildcontent.go:395-397 | template files make no difference to the classification |
| BuildContent.ScanInterface | pkg/maker/buildcontent.go:385-391 | the early-exit loop finds the interface flag: no non-template file has a category containing "source" |
| BuildContent.RunParts | pkg/maker/buildcontent.go:393-427 | the routing loop yields the classification, the registered source languages and the extended global pre-includes |
| BuildContent.IncludeEntriesKey | pkg/maker/buildcontent.go:400-404 | include entries are scoped INTERFACE iff the file set is an interface |
| BuildContent.SourcesOfInterface | pkg/maker/buildcontent.go:385-391 | an interface has no sources |
| BuildContent.NonTemplatesInterface | pkg/maker/buildcontent.go:385-391 | templates do not decide the interface flag |
| BuildContent.Classify | pkg/maker/buildcontent.go:381-430 | the interface flag holds iff no file compiles a source; libraries, objects and local pre-includes are the prefixed files of that category in input order |
| BuildContent.ClassifyFacts | pkg/maker/buildcontent.go:381-430 | the interface flag holds iff no non-template source file exists; include scopes follow it; buckets are duplicate-free and hold exactly their entries; sources, libraries, objects and local pre-includes are in input order; templates are ignored |
| BuildContent.RegisterLanguage | pkg/maker/buildcontent.go:615-625 | the old list is kept as a prefix, at most one language is added, and a language is in the result iff it was before or it is the new one and not `ALL` |
| BuildContent.RegisterLanguageFacts | pkg/maker/buildcontent.go:615-625 | registering a language keeps the old list as a prefix, never adds `ALL`, never duplicates, and adds only that language |
| BuildContent.RegisterSourcesFacts | pkg/maker/buildcontent.go:414-416 | classification registers exactly the languages of the source files (not `ALL`), in discovery order, without duplicates |
| BuildContent.Cbuild.constructor | pkg/maker/parser.go:37-74 | a context starts with its description and empty language, pre-include, build-group and library lists |
| BuildContent.Cbuild.AddContextLanguage | pkg/maker/buildcontent.go:615-625 | the language list becomes `RegisterLanguage(old list, language)` and nothing else changes |
| BuildContent.Cbuild.ClassifyFiles | pkg/maker/buildcontent.go:381-430 | returns `Classify(files)`, registers the source languages and appends the global pre-includes, changing nothing else |
| BuildContent.Cbuild.RouteFiles | pkg/maker/buildcontent.go:393-427 | the routing loop ends in the state the `Run` specification gives |
| BuildContent.Cbuild.RouteFile | pkg/maker/buildcontent.go:394-426 | one file goes to its bucket; only a source registers its language and only a global pre-include extends the context's list |
| ContextLists.GroupNames | pkg/maker/contextlists.go:200-206 | a first-level group is `Group_<name>` under `${CONTEXT}`, a nested one `<parent>_<name>` under its parent |
| ContextLists.NestedNameExtendsParent | pkg/maker/contextlists.go:200-206 | a nested target name extends its parent's name and differs from it |
| ContextLists.Pruned | pkg/maker/contextlists.go:195-199 | only a childless group is pruned, and a pruned group has no source language, library or object |
| ContextLists.TargetScope | pkg/maker/contextlists.go:207-211 | INTERFACE iff the files form an interface, otherwise PUBLIC |
| ContextLists.SourceLanguagesFacts | pkg/maker/contextlists.go:226 | the node's languages are exactly the keys of its source lists, without duplicates |
| ContextLists.Bundle | pkg/maker/contextlists.go:227-233 | an empty group hands down the empty bundle; otherwise the bundle is non-empty and empty for a language iff both parent and group are |
| ContextLists.BundleFacts | pkg/maker/contextlists.go:227-233 | an empty group hands down the empty bundle; otherwise the bundle is the merge with the parent, non-empty over the context's languages |
| ContextLists.GroupAbstractionLink | pkg/maker/contextlists.go:234-241 | at most one link, none iff the group is an interface, has file abstractions, or both it and its parent are empty; `<name>_ABSTRACTIONS` when the group has abstractions, else `<parent>_ABSTRACTIONS` |
| ContextLists.ComponentAbstractionLink | pkg/maker/contextlists.go:318-328 | at most one link, none iff component and global abstractions are empty; `<name>_ABSTRACTIONS` when the component has them, else `${CONTEXT}_ABSTRACTIONS` |
| ContextLists.ComponentLinksLikeGroup | pkg/maker/contextlists.go:318-328 | a component chooses like a non-interface group without file abstractions whose parent is the context |
| ContextLists.GroupTargetOf | pkg/maker/contextlists.go:200-249 | the group's record carries the names of `GroupNames`, is INTERFACE iff no file compiles a source and is never PRIVATE |
| ContextLists.GroupTargetLibraries | pkg/maker/contextlists.go:234-249 | a group's links end with its own libraries and objects, after at most one abstraction link |
| ContextLists.WalkGroup | pkg/maker/contextlists.go:192-291 | one group only extends the build groups, global libraries and global pre-includes, and yields no record iff it is pruned |
| ContextLists.WalkGroups | pkg/maker/contextlists.go:189-294 | a level only extends the build groups, global libraries and global pre-includes |
| ContextLists.ComponentTargetOf | pkg/maker/contextlists.go:299-336 | the component's record is named after the sanitised component, is INTERFACE iff it has no source, never PRIVATE, has a bundle iff its abstractions are non-empty over its languages, and links its libraries and objects last after at most one link |
| ContextLists.CreateGroupRecursively | pkg/maker/contextlists.go:189-294 | the loop over one level leaves the context and returns the records the `WalkGroups` specification gives |
| ContextLists.CreateGroup | pkg/maker/contextlists.go:192-291 | one group: classification, pruning, its record, its libraries and custom targets, its children, then its own name |
| ContextLists.GroupDecision | pkg/maker/contextlists.go:200-241 | the name, scope, bundle and links computed in place equal `GroupTargetOf` |
| ContextLists.GroupLink | pkg/maker/contextlists.go:234-241 | the branch computes `GroupAbstractionLink` |
| ContextLists.AddCustomFileTargets | pkg/maker/contextlists.go:254-259 | the custom file targets of the group's source files are appended in file order |
| ContextLists.TargetNamesAppend | pkg/maker/contextlists.go:192 | the names of two record lists concatenate |
| ContextLists.WalkGroupBuildGroups | pkg/maker/contextlists.go:258-291 | a group adds to `BuildGroups` exactly its post-order names: custom targets, descendants, then itself |
| ContextLists.WalkGroupsBuildGroups | pkg/maker/contextlists.go:192-292 | a level adds the post-order names of its groups, one after another |
| ContextLists.WalkGroupLibraries | pkg/maker/contextlists.go:247-248 | a group adds to `LibraryGlobal` exactly its own and its descendants' library files, in walk order |
| ContextLists.WalkGroupsLibraries | pkg/maker/contextlists.go:192-292 | a level adds its groups' library files in walk order and nothing else |
| ContextLists.WalkGroupTargets | pkg/maker/contextlists.go:200-289 | the records of a group are in pre-order of the kept groups |
| ContextLists.WalkGroupsTargets | pkg/maker/contextlists.go:192-292 | the records of a level are its groups' pre-orders, one after another |
| ContextLists.KeptGroupNameLast | pkg/maker/contextlists.go:258-291 | a kept group's own name comes last, after its custom targets and its descendants' names |
| ContextLists.PrunedLeavesNoTrace | pkg/maker/contextlists.go:195-199 | only childless groups are pruned; a pruned group yields no record and leaves `BuildGroups` and `LibraryGlobal` unchanged |
| ContextLists.ComponentsKeepBuildGroups | pkg/maker/contextlists.go:298-348 | the component loop never touches `BuildGroups` |
| ContextLists.ComponentsAddLibraries | pkg/maker/contextlists.go:334-335 | the component loop adds to `LibraryGlobal` exactly the components' library files, in order |
| ContextLists.DecidedStep | pkg/maker/contextlists.go:298-348 | one more component adds its own record at its own index |
| ContextLists.CreateComponents | pkg/maker/contextlists.go:296-357 | the loop leaves the context as `ComponentsState` says and returns one `ComponentTargetOf` record per component, in order |
| ContextLists.CreateComponent | pkg/maker/contextlists.go:299-336 | one component: its record and its effect on the context |
| ContextLists.ComponentLink | pkg/maker/contextlists.go:318-328 | the branch yields the component's bundle, when it has one, and its abstraction link |
| ContextLists.ComponentDecision | pkg/maker/contextlists.go:299-336 | the name, scope, bundle and links computed in place equal `ComponentTargetOf` |
| ContextLists.GetLinkLibraries | pkg/maker/contextlists.go:359-368 | for GCC with more than one library, the misc and global libraries wrapped in `--start-group`/`--end-group`; otherwise the misc libraries unchanged |
| Toolchain.LessThanTotalOrder | pkg/maker/toolchain.go:119-122 | version precedence is a strict total order |
| Toolchain.IndexOfAt | pkg/maker/toolchain.go:88 | the index of the first '@', or -1 iff there is none |
| Toolchain.SplitCompiler | pkg/maker/toolchain.go:86-93 | the name has no '@'; there is a constraint iff the compiler has an '@'; name, '@' and constraint rebuild the compiler |
| Toolchain.SplitJoin | pkg/maker/toolchain.go:86-93 | joining a name and a constraint with '@' splits back into them |
| Toolchain.Selected | pkg/maker/toolchain.go:124-146 | a selected version meets a configuration floor and the constraint, and its path belongs to a configuration of that toolchain at or below it |
| Toolchain.SelectedVersionUnique | pkg/maker/toolchain.go:124-146 | the selected version is determined by the inputs, whatever order the entries come in |
| Toolchain.ExactConstraintPicksIt | pkg/maker/toolchain.go:135-142 | an exact constraint selects the version it names, even when a newer one is registered |
| Toolchain.AtLeastConstraintPicksNewest | pkg/maker/toolchain.go:124-146 | a `>=` constraint selects a version at or above its bound, and no registered installation above the bound that meets a floor is newer |
| Toolchain.UnconstrainedNotOlder | pkg/maker/toolchain.go:124-146 | without a constraint no registered installation meeting a floor is newer than the one selected |
| Toolchain.SelectedConfigIsFloor | pkg/maker/toolchain.go:127-133 | the selected configuration is one of that toolchain at or below the selected version |
| Toolchain.NamedMembers | pkg/maker/toolchain.go:105-121 | the filter keeps exactly the entries of the requested name |
| Toolchain.FilterNamed | pkg/maker/toolchain.go:106-110 | the loop builds the filtered list |
| Toolchain.SortDescending | pkg/maker/toolchain.go:115 | the array ends sorted newest first and is a permutation of its old contents |
| Toolchain.InsertDescending | pkg/maker/toolchain.go:115 | one insertion step extends the sorted prefix by one and permutes the array |
| Toolchain.SwapStep | pkg/maker/toolchain.go:115 | one swap moves the inserted entry one place left, keeping the rest sorted and the contents the same |
| Toolchain.InsertDone | pkg/maker/toolchain.go:115 | the insertion stops when the entry is in place, and the prefix is sorted |
| Toolchain.FirstFloor | pkg/maker/toolchain.go:127-134 | the inner loop finds the first (newest) configuration at or below the version, or -1 iff there is none |
| Toolchain.LatestCompatible | pkg/maker/toolchain.go:124-146 | the outer loop stops at the first (newest) registered version that meets a floor and the constraint, with the configuration that floor came from, or reports that none does |
| Toolchain.CandidatesAgree | pkg/maker/toolchain.go:105-134 | a floor in the sorted configurations is a floor among the configurations of that name |
| Toolchain.ScanSelects | pkg/maker/toolchain.go:124-146 | what the scan stops at over the sorted lists is the declarative selection |
| Toolchain.ScanFindsNone | pkg/maker/toolchain.go:147-150 | a scan that finds nothing means no registered installation meets a floor and the constraint |
| Toolchain.SortedNamed | pkg/maker/toolchain.go:105-122 | a fresh array holding the entries of the name, newest first |
| Toolchain.NoneNamed | pkg/maker/toolchain.go:111-114 | an empty filtered list means no configuration of the toolchain exists |
| Toolchain.SomeNamed | pkg/maker/toolchain.go:111-114 | a non-empty filtered list means one exists |
| Toolchain.ContextError | pkg/maker/toolchain.go:105-150 | no error iff a configuration exists and some registered installation meets a floor and the constraint; "no toolchain configuration file was found for <name>" iff no configuration exists; "no compatible registered toolchain was found for <name>" iff one exists but no installation qualifies |
| Toolchain.ResolveContext | pkg/maker/toolchain.go:85-150 | fails iff there is no configuration of the name ("no toolchain configuration file was found for <name>") or no compatible installation ("no compatible registered toolchain was found for <name>"); otherwise returns the selected version and configuration path |
| Toolchain.Maker.constructor | pkg/maker/maker.go:31-47 | a maker starts with its compiler root and compilers and no entries or selections |
| Toolchain.Maker.ProcessToolchain | pkg/maker/toolchain.go:55-157 | no configuration at all fails with "no toolchain configuration file was found in <root>" and selects nothing; otherwise fresh result arrays hold each context's selection at its own index, up to the first failing context, whose error is returned |
| Toolchain.AllResolvedStep | pkg/maker/toolchain.go:82-84 | writing one context's selection at its index keeps the earlier contexts' selections |
| Toolchain.ResolveAll | pkg/maker/toolchain.go:81-157 | the per-context loop ends in the outcome stated by `Outcome`: every context resolved, or the first failure's error with the earlier ones resolved |
| Paths.Clean | pkg/maker/buildcontent.go:406 | `path.Clean` never yields the empty path and keeps a path rooted iff it was |
| Paths.CleanName | pkg/maker/buildcontent.go:406 | a single ordinary name is already clean |
| Paths.Join | pkg/maker/buildcontent.go:368 | `path.Join` is empty iff every element is |
| Paths.Dir | pkg/maker/buildcontent.go:408 | `path.Dir` is never empty, is "." for a name without a slash and "/" for a name directly under the root |
| Paths.Ext | pkg/maker/buildcontent.go:67 | `path.Ext` is a suffix of the path, empty or starting at its only dot, and holds no slash |

## Left out

- File I/O is not modelled: `ReadFileContent` and `UpdateFile` (pkg/utils/utils.go:96-133) and the writing of the CMake files.
- The directory scan of the compiler root and the environment scan (pkg/maker/toolchain.go:27-79), with their file-name regular expressions, are not modelled. `ProcessToolchain` takes the parsed (name, version, path) entries as sequences.
- YAML parsing, the command line and logging are not modelled.
- CMake text emission is not modelled. That covers `CMakeAddLibrary`, the `CMakeTarget*` emitters, `LanguageSpecificCompileOptions`, `LinkerOptions`, `ProcessorOptions`, `SetOptionsFlags` and the context templates. Each kept group or component yields a decision record instead.
- The Masterminds semver constraint language is a foreign library. A constraint is the parameter `satisfies`, and the lemmas instantiate it for exact and `>=` bounds. A constraint that fails to parse is kept as a nil constraint, on which toolchain.go:137 then calls `Check`; what that does is up to the foreign library, so the model treats every constraint, parsed or not, as an arbitrary predicate and does not single out the unparsable one.
- Toolchain.SelectedVersionUnique: when two entries carry equal versions, Go's choice between them depends on map iteration and sort stability. The model states the selected version and a configuration path of the newest floor, not which of two equal-version entries wins.
- Toolchain.Maker.ProcessToolchain: when a context fails, Go may already have written a version into that context's slot while scanning. The model leaves the failing context's slot and later slots empty.
- Version-keyed Go maps (`map[*semver.Version]Toolchain`) are modelled as sequences of entries.
- Prerelease and build metadata of versions are not modelled: a version is a (major, minor, patch) triple.
- `path.Clean`, `path.Join`, `path.Dir` and `path.Ext` are modelled lexically in `Paths`, with only the properties the classifier needs.
- `ReplaceDelimiters` is a left-to-right scanner equivalent to the alternation regular expression of pkg/maker/buildcontent.go:86. It is not a regular-expression engine.
- The `Custom` bucket and `HasFileCustomOptions` are not part of this model. Custom targets are named through the parameter `custom`, and the `Custom` bucket is taken as empty in pruning and in the node languages.
- `MergeIncludes`, `AppendGlobalIncludes`, `UserIncGlobal`, `IncludeGlobal`, `SetFileAsmDefines` and the threading of `DefineAsm` and `miscAsm` through the walk are not part of this model.
- `AdjustRelativePath`, `GetCompileOptionsLanguageMap` and `BuildDependencies` are not modelled.
- Utils.GetDefine: only single-entry maps are modelled. A multi-entry map's result depends on Go's map iteration order.
- ContextLists.SourceLanguages: Go takes the source languages in `maps.Keys` order, which is unspecified. The model lists them in a fixed order. Only membership matters to the decisions.
- The include buckets are a flat map keyed by (scope, language), not nested Go maps.
- Two behaviours asserted by tests are not implemented by the code, and the model follows the code. A configuration header is not put first among includes; `ClassifyFiles` appends. The "Handlers (GCC)" identifier is not fully rewritten by the delimiter pattern.
- Literal test examples are not restated one by one. The general lemmas above cover them.
