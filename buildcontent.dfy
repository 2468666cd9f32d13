/**
 * The file classifier and the compiler-abstraction merge of the CMake
 * generator: file languages and scopes, target-name sanitising, root
 * prefixing, the field-wise abstraction override, per-file options, the
 * primary-output choice, and the context object whose language list and
 * global pre-include list the classifier updates.
 */
module BuildContent {
  import opened Wrappers
  import opened Utils
  import Paths

  // ---------------------------------------------------------------------------
  // Languages and scopes (buildcontent.go:39-83)
  // ---------------------------------------------------------------------------

  /** The language tags the generator uses: ASM, C, CXX, the mixed "C,CXX" and the catch-all ALL. */
  datatype Language = Asm | C | Cxx | CAndCxx | All

  function LanguageName(l: Language): string
  {
    match l
    case Asm => "ASM"
    case C => "C"
    case Cxx => "CXX"
    case CAndCxx => "C,CXX"
    case All => "ALL"
  }

  /** Target scopes: PUBLIC, PRIVATE and INTERFACE. */
  datatype Scope = Public | Private | Interface

  function ScopeName(s: Scope): string
  {
    match s
    case Public => "PUBLIC"
    case Private => "PRIVATE"
    case Interface => "INTERFACE"
  }

  /** The five compiler abstractions; "" means not set. */
  datatype CompilerAbstractions = CompilerAbstractions(
    debug: string, optimize: string, warnings: string, languageC: string, languageCpp: string)

  const NoAbstractions := CompilerAbstractions("", "", "", "", "")

  /** Miscellaneous tool options per language, and extra libraries. */
  datatype Misc = Misc(asm: seq<string>, c: seq<string>, cpp: seq<string>, ccpp: seq<string>, library: seq<string>)

  const NoMisc := Misc([], [], [], [], [])

  /**
   * One entry of a file list in the build description: its path, category,
   * attribute ("template", "config", ...), language and scope fields, its
   * file-level abstractions and options.
   */
  datatype FileEntry = FileEntry(
    file: string, category: string, attr: string, language: string, scope: string,
    abstractions: CompilerAbstractions, misc: Misc)

  /** CategoryLanguageMap: the categories that name their language. */
  function CategoryLanguage(category: string): Option<Language>
  {
    match category
    case "headerAsm" => Some(Asm)
    case "headerC" => Some(C)
    case "headerCpp" => Some(Cxx)
    case "includeAsm" => Some(Asm)
    case "includeC" => Some(C)
    case "includeCpp" => Some(Cxx)
    case "sourceAsm" => Some(Asm)
    case "sourceC" => Some(C)
    case "sourceCpp" => Some(Cxx)
    case _ => None
  }

  /** LanguageReMap: the values of a file's language field. */
  function LanguageRemap(language: string): Option<Language>
  {
    match language
    case "asm" => Some(Asm)
    case "c" => Some(C)
    case "cpp" => Some(Cxx)
    case "c-cpp" => Some(CAndCxx)
    case _ => None
  }

  /** The extension switch of GetLanguage; ALL for any other extension. */
  function ExtensionLanguage(ext: string): Language
  {
    match ext
    case ".c" => C
    case ".C" => C
    case ".cpp" => Cxx
    case ".c++" => Cxx
    case ".C++" => Cxx
    case ".cxx" => Cxx
    case ".cc" => Cxx
    case ".CC" => Cxx
    case ".asm" => Asm
    case ".s" => Asm
    case ".S" => Asm
    case _ => All
  }

  /** GetLanguage: category first, then the language field, then the extension. */
  function GetLanguage(file: FileEntry): (r: Language)
    ensures CategoryLanguage(file.category).Some? ==> r == CategoryLanguage(file.category).value
    ensures CategoryLanguage(file.category).None? && LanguageRemap(file.language).Some? ==> r == LanguageRemap(file.language).value
    ensures r == All ==> CategoryLanguage(file.category).None? && LanguageRemap(file.language).None?
    ensures r == CAndCxx <==> CategoryLanguage(file.category).None? && file.language == "c-cpp"
  {
    var byCategory := CategoryLanguage(file.category);
    if byCategory.Some? then byCategory.value
    else
      var byField := LanguageRemap(file.language);
      if byField.Some? then byField.value
      else ExtensionLanguage(Paths.Ext(file.file))
  }

  /** A category the category table knows decides, whatever the language field and the path say. */
  lemma CategoryDecidesLanguage(file: FileEntry, language: string, path: string)
    requires CategoryLanguage(file.category).Some?
    ensures GetLanguage(file.(language := language, file := path)) == CategoryLanguage(file.category).value
  {
  }

  /** Without a known category, a known language field decides, whatever the path says. */
  lemma LanguageFieldDecides(file: FileEntry, path: string)
    requires CategoryLanguage(file.category).None? && LanguageRemap(file.language).Some?
    ensures GetLanguage(file.(file := path)) == LanguageRemap(file.language).value
  {
  }

  /** Only when neither table knows the file does the extension decide; an unknown extension gives ALL. */
  lemma ExtensionDecidesLast(file: FileEntry)
    requires CategoryLanguage(file.category).None? && LanguageRemap(file.language).None?
    ensures GetLanguage(file) == ExtensionLanguage(Paths.Ext(file.file))
    ensures GetLanguage(file) == All <==>
      Paths.Ext(file.file) !in {".c", ".C", ".cpp", ".c++", ".C++", ".cxx", ".cc", ".CC", ".asm", ".s", ".S"}
  {
  }

  /** The mixed tag "C,CXX" comes only from the language field "c-cpp". */
  lemma MixedLanguageOnlyFromField(file: FileEntry)
    ensures GetLanguage(file) == CAndCxx <==>
      CategoryLanguage(file.category).None? && file.language == "c-cpp"
  {
  }

  /** GetScope: "private" and "hidden" are PRIVATE, anything else PUBLIC. */
  function GetScope(file: FileEntry): (r: Scope)
    ensures r != Interface
    ensures r == Private <==> file.scope == "private" || file.scope == "hidden"
  {
    if |file.scope| > 0 && (file.scope == "private" || file.scope == "hidden") then Private else Public
  }

  // ---------------------------------------------------------------------------
  // Target-name sanitising (buildcontent.go:85-88)
  // ---------------------------------------------------------------------------

  /** The single characters the delimiter pattern replaces. */
  predicate IsDelimiter(ch: char)
  {
    ch == ':' || ch == '&' || ch == '@' || ch == '.' || ch == '/' || ch == ' '
  }

  predicate DelimiterFree(s: string)
  {
    forall i :: 0 <= i < |s| ==> !IsDelimiter(s[i])
  }

  /**
   * ReplaceDelimiters: scanning left to right, each leftmost match of `::`,
   * `:`, `&`, `@>=`, `@`, `.`, `/` or a space becomes one `_`; the
   * alternatives are tried in that order, so `::` and `@>=` are one match
   * each. The result is free of delimiters, empty only for empty input, and
   * never longer than the input.
   */
  function ReplaceDelimiters(identifier: string): (r: string)
    ensures |r| <= |identifier|
    ensures |r| == 0 <==> |identifier| == 0
    ensures DelimiterFree(r)
  {
    var t := identifier;
    if t == [] then []
    else if 1 < |t| && t[0] == ':' && t[1] == ':' then "_" + ReplaceDelimiters(t[2..])
    else if 2 < |t| && t[0] == '@' && t[1] == '>' && t[2] == '=' then "_" + ReplaceDelimiters(t[3..])
    else if IsDelimiter(t[0]) then "_" + ReplaceDelimiters(t[1..])
    else [t[0]] + ReplaceDelimiters(t[1..])
  }

  /** Text without delimiters is left as it is. */
  lemma {:induction false} ReplaceDelimitersIdentity(s: string)
    requires DelimiterFree(s)
    ensures ReplaceDelimiters(s) == s
  {
    if s != [] {
      assert !IsDelimiter(s[0]);
      ReplaceDelimitersIdentity(s[1..]);
    }
  }

  /** Sanitising a sanitised name changes nothing. */
  lemma ReplaceDelimitersIdempotent(s: string)
    ensures ReplaceDelimiters(ReplaceDelimiters(s)) == ReplaceDelimiters(s)
  {
    ReplaceDelimitersIdentity(ReplaceDelimiters(s));
  }

  /** A character that is no delimiter is copied. */
  lemma ReplaceDelimitersPlainChar(t: string)
    requires t != [] && !IsDelimiter(t[0])
    ensures ReplaceDelimiters(t) == [t[0]] + ReplaceDelimiters(t[1..])
  {
    assert t[0] != ':' && t[0] != '@';
  }

  /** A delimiter-free head passes through, and the rest is sanitised on its own. */
  lemma {:induction false} ReplaceDelimitersPlainHead(a: string, b: string)
    requires DelimiterFree(a)
    ensures ReplaceDelimiters(a + b) == a + ReplaceDelimiters(b)
  {
    if a != [] {
      var t := a + b;
      assert t[0] == a[0] && !IsDelimiter(a[0]);
      assert t[1..] == a[1..] + b;
      ReplaceDelimitersPlainHead(a[1..], b);
      calc {
        ReplaceDelimiters(t);
        { ReplaceDelimitersPlainChar(t); }
        [a[0]] + ReplaceDelimiters(a[1..] + b);
        [a[0]] + (a[1..] + ReplaceDelimiters(b));
        { assert [a[0]] + a[1..] == a; }
        a + ReplaceDelimiters(b);
      }
    } else {
      assert a + b == b;
    }
  }

  /** A leading single-character delimiter becomes one `_`, unless it starts `::` or `@>=`. */
  lemma ReplaceDelimitersSingle(c: char, b: string)
    requires IsDelimiter(c)
    requires !(c == ':' && |b| > 0 && b[0] == ':')
    requires !(c == '@' && |b| > 1 && b[0] == '>' && b[1] == '=')
    ensures ReplaceDelimiters([c] + b) == "_" + ReplaceDelimiters(b)
  {
    assert ([c] + b)[1..] == b;
  }

  /** A leading `::` becomes a single `_`. */
  lemma ReplaceDelimitersScope(b: string)
    ensures ReplaceDelimiters("::" + b) == "_" + ReplaceDelimiters(b)
  {
    assert ("::" + b)[2..] == b;
  }

  /** A leading `@>=` becomes a single `_`. */
  lemma ReplaceDelimitersAtLeast(b: string)
    ensures ReplaceDelimiters("@>=" + b) == "_" + ReplaceDelimiters(b)
  {
    assert ("@>=" + b)[3..] == b;
  }

  // ---------------------------------------------------------------------------
  // Root prefixing (buildcontent.go:366-379)
  // ---------------------------------------------------------------------------

  /**
   * AddRootPrefix: a path that already starts with a variable reference `${`
   * is kept; any other is joined to the base and placed under ${SOLUTION_ROOT}.
   */
  function AddRootPrefix(base: string, input: string): (r: string)
    ensures Paths.HasPrefix(r, "${")
    ensures Paths.HasPrefix(input, "${") ==> r == input
    ensures !Paths.HasPrefix(input, "${") ==>
      Paths.HasPrefix(r, "${SOLUTION_ROOT}/") && r[|"${SOLUTION_ROOT}/"|..] == Paths.Join([base, input])
  {
    if !Paths.HasPrefix(input, "${") then "${SOLUTION_ROOT}/" + Paths.Join([base, input]) else input
  }

  /** Prefixing an already prefixed path, under any base, changes nothing. */
  lemma AddRootPrefixIdempotent(base: string, other: string, input: string)
    ensures AddRootPrefix(other, AddRootPrefix(base, input)) == AddRootPrefix(base, input)
  {
  }

  /** AddRootPrefixes: AddRootPrefix applied to every element, in order. */
  method AddRootPrefixes(base: string, input: seq<string>) returns (list: seq<string>)
    ensures |list| == |input|
    ensures forall i :: 0 <= i < |input| ==> list[i] == AddRootPrefix(base, input[i])
  {
    list := [];
    for i := 0 to |input|
      invariant |list| == i
      invariant forall j :: 0 <= j < i ==> list[j] == AddRootPrefix(base, input[j])
    {
      list := list + [AddRootPrefix(base, input[i])];
    }
  }

  // ---------------------------------------------------------------------------
  // Compiler abstractions (buildcontent.go:313-336, 495-512, 536-548)
  // ---------------------------------------------------------------------------

  /**
   * IsAbstractionEmpty: debug, optimize and warnings always count; the C
   * standard counts only for C and the C++ standard only for CXX.
   */
  predicate IsAbstractionEmpty(a: CompilerAbstractions, language: Language)
    ensures IsAbstractionEmpty(a, language) ==> a.debug == "" && a.optimize == "" && a.warnings == ""
    ensures language != C && language != Cxx ==>
      (IsAbstractionEmpty(a, language) <==> a.debug == "" && a.optimize == "" && a.warnings == "")
    ensures language == C ==>
      (IsAbstractionEmpty(a, language) <==> a.debug == "" && a.optimize == "" && a.warnings == "" && a.languageC == "")
    ensures language == Cxx ==>
      (IsAbstractionEmpty(a, language) <==> a.debug == "" && a.optimize == "" && a.warnings == "" && a.languageCpp == "")
  {
    !(|a.debug| > 0 || |a.optimize| > 0 || |a.warnings| > 0 ||
      (language == C && |a.languageC| > 0) ||
      (language == Cxx && |a.languageCpp| > 0))
  }

  /** The C standard is ignored for every language but C, the C++ standard for every language but CXX. */
  lemma StandardsCountOnlyForTheirLanguage(a: CompilerAbstractions, language: Language, standard: string)
    ensures language != C ==> IsAbstractionEmpty(a.(languageC := standard), language) == IsAbstractionEmpty(a, language)
    ensures language != Cxx ==> IsAbstractionEmpty(a.(languageCpp := standard), language) == IsAbstractionEmpty(a, language)
  {
  }

  /** The abstractions are empty for every one of the languages. */
  predicate EmptyOver(a: CompilerAbstractions, languages: seq<Language>)
  {
    forall i :: 0 <= i < |languages| ==> IsAbstractionEmpty(a, languages[i])
  }

  /** AreAbstractionsEmpty: the early-exit scan over the language list. */
  method AreAbstractionsEmpty(a: CompilerAbstractions, languages: seq<Language>) returns (empty: bool)
    ensures empty == EmptyOver(a, languages)
  {
    for i := 0 to |languages|
      invariant forall j :: 0 <= j < i ==> IsAbstractionEmpty(a, languages[j])
    {
      if !IsAbstractionEmpty(a, languages[i]) {
        return false;
      }
    }
    return true;
  }

  /** The emptiness cases of the generator's tests; an empty language list is vacuously empty. */
  lemma AreAbstractionsEmptyExamples()
    ensures EmptyOver(NoAbstractions, [Asm, C, Cxx])
    ensures !EmptyOver(NoAbstractions.(debug := "on"), [Asm])
    ensures !EmptyOver(NoAbstractions.(languageC := "c11"), [C])
    ensures !EmptyOver(NoAbstractions.(languageCpp := "c++11"), [Cxx])
    ensures EmptyOver(NoAbstractions.(languageC := "c11"), [Cxx])
    ensures EmptyOver(NoAbstractions.(languageCpp := "c++11"), [C])
    ensures forall a :: EmptyOver(a, [])
  {
    assert !IsAbstractionEmpty(NoAbstractions.(debug := "on"), [Asm][0]);
    assert !IsAbstractionEmpty(NoAbstractions.(languageC := "c11"), [C][0]);
    assert !IsAbstractionEmpty(NoAbstractions.(languageCpp := "c++11"), [Cxx][0]);
  }

  /** InheritCompilerAbstractions: each field of the child, or the parent's where the child's is empty. */
  function InheritCompilerAbstractions(parent: CompilerAbstractions, child: CompilerAbstractions): (r: CompilerAbstractions)
    ensures r.debug in {child.debug, parent.debug} && (r.debug == "" <==> child.debug == "" && parent.debug == "")
    ensures r.optimize in {child.optimize, parent.optimize} && (r.optimize == "" <==> child.optimize == "" && parent.optimize == "")
    ensures r.warnings in {child.warnings, parent.warnings} && (r.warnings == "" <==> child.warnings == "" && parent.warnings == "")
    ensures r.languageC in {child.languageC, parent.languageC} && (r.languageC == "" <==> child.languageC == "" && parent.languageC == "")
    ensures r.languageCpp in {child.languageCpp, parent.languageCpp} &&
      (r.languageCpp == "" <==> child.languageCpp == "" && parent.languageCpp == "")
  {
    CompilerAbstractions(
      if |child.debug| == 0 then parent.debug else child.debug,
      if |child.optimize| == 0 then parent.optimize else child.optimize,
      if |child.warnings| == 0 then parent.warnings else child.warnings,
      if |child.languageC| == 0 then parent.languageC else child.languageC,
      if |child.languageCpp| == 0 then parent.languageCpp else child.languageCpp)
  }

  /** A set child field wins; an unset one takes the parent's. */
  lemma InheritFieldwise(parent: CompilerAbstractions, child: CompilerAbstractions)
    ensures var r := InheritCompilerAbstractions(parent, child);
      (child.debug != "" ==> r.debug == child.debug) && (child.debug == "" ==> r.debug == parent.debug) &&
      (child.optimize != "" ==> r.optimize == child.optimize) && (child.optimize == "" ==> r.optimize == parent.optimize) &&
      (child.warnings != "" ==> r.warnings == child.warnings) && (child.warnings == "" ==> r.warnings == parent.warnings) &&
      (child.languageC != "" ==> r.languageC == child.languageC) && (child.languageC == "" ==> r.languageC == parent.languageC) &&
      (child.languageCpp != "" ==> r.languageCpp == child.languageCpp) && (child.languageCpp == "" ==> r.languageCpp == parent.languageCpp)
  {
  }

  /** An empty child inherits the parent; a fully set child keeps itself. */
  lemma InheritExtremes(parent: CompilerAbstractions, child: CompilerAbstractions)
    ensures InheritCompilerAbstractions(parent, NoAbstractions) == parent
    ensures (child.debug != "" && child.optimize != "" && child.warnings != "" &&
             child.languageC != "" && child.languageCpp != "") ==> InheritCompilerAbstractions(parent, child) == child
  {
  }

  /** Inheriting twice from the same parent is inheriting once. */
  lemma InheritIdempotent(parent: CompilerAbstractions, child: CompilerAbstractions)
    ensures InheritCompilerAbstractions(parent, InheritCompilerAbstractions(parent, child)) ==
      InheritCompilerAbstractions(parent, child)
  {
  }

  /** The merged bundle is empty for a language exactly when parent and child both are. */
  lemma InheritEmptiness(parent: CompilerAbstractions, child: CompilerAbstractions, languages: seq<Language>)
    ensures forall l :: IsAbstractionEmpty(InheritCompilerAbstractions(parent, child), l) <==>
      IsAbstractionEmpty(parent, l) && IsAbstractionEmpty(child, l)
    ensures EmptyOver(InheritCompilerAbstractions(parent, child), languages) <==>
      EmptyOver(parent, languages) && EmptyOver(child, languages)
  {
  }

  /** A file that carries abstractions of its own: a source-category file whose abstractions are not empty for its language. */
  predicate FileHasAbstractions(file: FileEntry)
  {
    Contains(file.category, "source") && !IsAbstractionEmpty(file.abstractions, GetLanguage(file))
  }

  /** Some file of the list carries abstractions of its own (templates included). */
  predicate AnyFileAbstractions(files: seq<FileEntry>)
  {
    exists i :: 0 <= i < |files| && FileHasAbstractions(files[i])
  }

  /** HasFileAbstractions: the early-exit scan over the files. */
  method HasFileAbstractions(files: seq<FileEntry>) returns (has: bool)
    ensures has == AnyFileAbstractions(files)
  {
    has := false;
    for i := 0 to |files|
      invariant !has
      invariant forall j :: 0 <= j < i ==> !FileHasAbstractions(files[j])
    {
      if Contains(files[i].category, "source") {
        has := !IsAbstractionEmpty(files[i].abstractions, GetLanguage(files[i]));
        if has {
          assert FileHasAbstractions(files[i]);
          return;
        }
      }
    }
  }

  // ---------------------------------------------------------------------------
  // Per-file options (buildcontent.go:313-318, 338-355)
  // ---------------------------------------------------------------------------

  /** IsCompileMiscEmpty: no ASM, C, C++ or common C/C++ option (libraries do not count). */
  predicate IsCompileMiscEmpty(misc: Misc)
    ensures IsCompileMiscEmpty(misc) <==> misc.asm + misc.c + misc.cpp + misc.ccpp == []
    ensures IsCompileMiscEmpty(misc) ==> forall file: FileEntry :: file.misc == misc ==> GetFileOptions(file, false) == []
  {
    !(|misc.asm| > 0 || |misc.c| > 0 || |misc.cpp| > 0 || |misc.ccpp| > 0)
  }

  /** The prefix of a language's options-flags variable: CC for C, the language name otherwise. */
  function OptionsPrefix(language: Language): string
  {
    if language == C then "CC" else LanguageName(language)
  }

  /** The reference to a language's abstraction flags, `${<prefix>_OPTIONS_FLAGS}`. */
  function OptionsFlags(language: Language): string
  {
    "${" + OptionsPrefix(language) + "_OPTIONS_FLAGS}"
  }

  /**
   * GetFileOptions, before joining: the file's options for its language (C
   * and C++ files also get the common C/C++ options), then the abstraction
   * flags when the file has abstractions.
   */
  function GetFileOptions(file: FileEntry, hasAbstractions: bool): (r: seq<string>)
    ensures hasAbstractions ==> |r| > 0 && r[|r| - 1] == OptionsFlags(GetLanguage(file))
    ensures forall x :: x in r ==>
      x in file.misc.asm || x in file.misc.c || x in file.misc.cpp || x in file.misc.ccpp ||
      (hasAbstractions && x == OptionsFlags(GetLanguage(file)))
  {
    var language := GetLanguage(file);
    var options :=
      match language
      case Asm => file.misc.asm
      case C => file.misc.c + file.misc.ccpp
      case Cxx => file.misc.cpp + file.misc.ccpp
      case _ => [];
    if hasAbstractions then options + [OptionsFlags(language)] else options
  }

  /**
   * The options come from the file's own option lists, nothing else but the
   * flags reference; the flags reference is last exactly when the file has
   * abstractions; a file with neither options nor abstractions gets none.
   */
  lemma FileOptionsOrigin(file: FileEntry, hasAbstractions: bool)
    ensures var r := GetFileOptions(file, hasAbstractions);
      (forall x :: x in r ==> (
        x in file.misc.asm || x in file.misc.c || x in file.misc.cpp || x in file.misc.ccpp ||
         (hasAbstractions && x == OptionsFlags(GetLanguage(file))))) &&
      (hasAbstractions ==> |r| > 0 && r[|r| - 1] == OptionsFlags(GetLanguage(file))) &&
      (IsCompileMiscEmpty(file.misc) && !hasAbstractions ==> r == [])
  {
  }

  /**
   * Each language's options, in order: ASM files get the ASM options, C
   * files the C then the common C/C++ options, C++ files the C++ then the
   * common options, any other language none; the flags variable of the
   * language (CC for C) comes last exactly when the file has abstractions.
   */
  lemma FileOptionsPerLanguage(file: FileEntry, hasAbstractions: bool)
    ensures GetLanguage(file) == Asm ==>
      GetFileOptions(file, hasAbstractions) == file.misc.asm + (if hasAbstractions then ["${ASM_OPTIONS_FLAGS}"] else [])
    ensures GetLanguage(file) == C ==>
      GetFileOptions(file, hasAbstractions) ==
        file.misc.c + file.misc.ccpp + (if hasAbstractions then ["${CC_OPTIONS_FLAGS}"] else [])
    ensures GetLanguage(file) == Cxx ==>
      GetFileOptions(file, hasAbstractions) ==
        file.misc.cpp + file.misc.ccpp + (if hasAbstractions then ["${CXX_OPTIONS_FLAGS}"] else [])
    ensures GetLanguage(file) != Asm && GetLanguage(file) != C && GetLanguage(file) != Cxx ==>
      GetFileOptions(file, hasAbstractions) ==
        (if hasAbstractions then ["${" + LanguageName(GetLanguage(file)) + "_OPTIONS_FLAGS}"] else [])
  {
    assert OptionsFlags(Asm) == "${ASM_OPTIONS_FLAGS}";
    assert OptionsFlags(C) == "${CC_OPTIONS_FLAGS}";
    assert OptionsFlags(Cxx) == "${CXX_OPTIONS_FLAGS}";
  }

  // ---------------------------------------------------------------------------
  // Outputs (buildcontent.go:106-123)
  // ---------------------------------------------------------------------------

  /** An output of the build description: its type ("elf", "lib", "hex", "bin", "cmse-lib", ...) and file. */
  datatype Output = Output(kind: string, file: string)

  predicate IsByProduct(kind: string)
  {
    kind == "hex" || kind == "bin" || kind == "cmse-lib"
  }

  predicate IsConversion(kind: string)
  {
    kind == "hex" || kind == "bin"
  }

  predicate IsPrimary(kind: string)
  {
    kind == "elf" || kind == "lib"
  }

  /** The by-product outputs in order. */
  function ByProducts(outputs: seq<Output>): (r: seq<Output>)
    ensures forall o :: o in r <==> o in outputs && IsByProduct(o.kind)
    ensures |r| <= |outputs|
  {
    if outputs == [] then []
    else
      var init := ByProducts(outputs[..|outputs| - 1]);
      var o := outputs[|outputs| - 1];
      assert outputs == outputs[..|outputs| - 1] + [o];
      if IsByProduct(o.kind) then init + [o] else init
  }

  /** The post-build conversions (hex or bin) in order. */
  function Conversions(outputs: seq<Output>): (r: seq<string>)
    ensures forall k :: k in r <==> exists o :: o in outputs && IsConversion(o.kind) && o.kind == k
  {
    if outputs == [] then []
    else
      var init := Conversions(outputs[..|outputs| - 1]);
      var o := outputs[|outputs| - 1];
      assert outputs == outputs[..|outputs| - 1] + [o];
      if IsConversion(o.kind) then init + [o.kind] else init
  }

  /** The primary output: the last "elf" or "lib" entry, if any. */
  function Primary(outputs: seq<Output>): (r: Option<Output>)
    ensures r.None? <==> forall i :: 0 <= i < |outputs| ==> !IsPrimary(outputs[i].kind)
    ensures r.Some? ==> exists i :: 0 <= i < |outputs| && outputs[i] == r.value && IsPrimary(r.value.kind) &&
                                   forall j :: i < j < |outputs| ==> !IsPrimary(outputs[j].kind)
  {
    if outputs == [] then None
    else
      var o := outputs[|outputs| - 1];
      if IsPrimary(o.kind) then Some(o)
      else
        var r := Primary(outputs[..|outputs| - 1]);
        assert forall j :: 0 <= j < |outputs| - 1 ==> outputs[..|outputs| - 1][j] == outputs[j];
        r
  }

  /**
   * OutputFiles: the by-products and conversions in order, and the file and
   * type of the primary output ("" when there is none).
   */
  method OutputFiles(outputs: seq<Output>)
    returns (byProducts: seq<Output>, outputFile: string, outputType: string, conversions: seq<string>)
    ensures byProducts == ByProducts(outputs)
    ensures conversions == Conversions(outputs)
    ensures Primary(outputs).Some? ==> outputFile == Primary(outputs).value.file && outputType == Primary(outputs).value.kind
    ensures Primary(outputs).None? ==> outputFile == "" && outputType == ""
  {
    byProducts, outputFile, outputType, conversions := [], "", "", [];
    for i := 0 to |outputs|
      invariant byProducts == ByProducts(outputs[..i])
      invariant conversions == Conversions(outputs[..i])
      invariant Primary(outputs[..i]).Some? ==>
        outputFile == Primary(outputs[..i]).value.file && outputType == Primary(outputs[..i]).value.kind
      invariant Primary(outputs[..i]).None? ==> outputFile == "" && outputType == ""
    {
      var output := outputs[i];
      assert outputs[..i + 1][..i] == outputs[..i];
      if output.kind == "hex" || output.kind == "bin" {
        byProducts := byProducts + [output];
        conversions := conversions + [output.kind];
      } else if output.kind == "cmse-lib" {
        byProducts := byProducts + [output];
      } else if output.kind == "elf" || output.kind == "lib" {
        outputFile := output.file;
        outputType := output.kind;
      }
    }
    assert outputs[..|outputs|] == outputs;
  }

  // ---------------------------------------------------------------------------
  // File classification (buildcontent.go:19-26, 381-430)
  // ---------------------------------------------------------------------------

  /** The key of an include bucket: a scope and a language. */
  datatype IncludeKey = IncludeKey(scope: Scope, language: Language)

  /**
   * BuildFiles: whether the list is interface-only, the include directories by
   * scope and language, the sources by language, and the libraries, objects
   * and local pre-includes, each in input order.
   */
  datatype BuildFiles = BuildFiles(
    isInterface: bool,
    includes: map<IncludeKey, seq<string>>,
    source: map<Language, seq<string>>,
    library: seq<string>,
    objects: seq<string>,
    preIncludeLocal: seq<string>)

  /** A map entry, or the empty list for a missing key (Go's zero value). */
  function Lookup<K, V>(m: map<K, seq<V>>, k: K): seq<V>
  {
    if k in m then m[k] else []
  }

  /** Where the classification switch sends a file. */
  datatype Bucket = ToInclude | ToSource | ToLibrary | ToObject | ToPreIncludeLocal | ToPreIncludeGlobal | Nowhere

  /** The classification switch on a category; any category it does not list goes nowhere. */
  function BucketOf(category: string): Bucket
  {
    match category
    case "header" => ToInclude
    case "headerAsm" => ToInclude
    case "headerC" => ToInclude
    case "headerCpp" => ToInclude
    case "include" => ToInclude
    case "includeAsm" => ToInclude
    case "includeC" => ToInclude
    case "includeCpp" => ToInclude
    case "source" => ToSource
    case "sourceAsm" => ToSource
    case "sourceC" => ToSource
    case "sourceCpp" => ToSource
    case "library" => ToLibrary
    case "object" => ToObject
    case "preIncludeLocal" => ToPreIncludeLocal
    case "preIncludeGlobal" => ToPreIncludeGlobal
    case _ => Nowhere
  }

  /** Template files are skipped; any other file goes where its category sends it. */
  function BucketOfFile(file: FileEntry): Bucket
  {
    if file.attr == "template" then Nowhere else BucketOf(file.category)
  }

  /** A file that makes its list compiled rather than interface-only: not a template, category containing "source". */
  predicate CompilesSource(file: FileEntry)
  {
    Contains(file.category, "source") && file.attr != "template"
  }

  /** The first loop of ClassifyFiles: interface-only when no file compiles a source. */
  predicate IsInterfaceFiles(files: seq<FileEntry>)
  {
    forall i :: 0 <= i < |files| ==> !CompilesSource(files[i])
  }

  /** The directory an include entry contributes: its cleaned path, or the directory of it for a header. */
  function IncludePath(file: FileEntry): string
  {
    var p := Paths.Clean(file.file);
    if Contains(file.category, "header") then Paths.Dir(p) else p
  }

  /** The bucket of an include entry: INTERFACE in an interface list, otherwise the file's own scope. */
  function IncludeKeyOf(file: FileEntry, iface: bool): IncludeKey
  {
    IncludeKey(if iface then Interface else GetScope(file), GetLanguage(file))
  }

  /** One routing step on the include buckets: an include entry adds its directory to its bucket unless present. */
  function RouteIncludes(m: map<IncludeKey, seq<string>>, file: FileEntry, root: string, iface: bool): map<IncludeKey, seq<string>>
  {
    if BucketOfFile(file) == ToInclude then
      var key := IncludeKeyOf(file, iface);
      m[key := Appended(Lookup(m, key), [AddRootPrefix(root, IncludePath(file))])]
    else m
  }

  /** One routing step on the source buckets: a source file is appended to its language's list. */
  function RouteSources(m: map<Language, seq<string>>, file: FileEntry, root: string): map<Language, seq<string>>
  {
    if BucketOfFile(file) == ToSource then
      var language := GetLanguage(file);
      m[language := Lookup(m, language) + [AddRootPrefix(root, file.file)]]
    else m
  }

  /** One routing step on a plain list: a file sent to this bucket is appended. */
  function RouteList(list: seq<string>, file: FileEntry, root: string, bucket: Bucket): seq<string>
  {
    if BucketOfFile(file) == bucket then list + [AddRootPrefix(root, file.file)] else list
  }

  /** One step of the routing loop: where a single file lands. */
  function Route(b: BuildFiles, file: FileEntry, root: string): BuildFiles
  {
    BuildFiles(
      b.isInterface,
      RouteIncludes(b.includes, file, root, b.isInterface),
      RouteSources(b.source, file, root),
      RouteList(b.library, file, root, ToLibrary),
      RouteList(b.objects, file, root, ToObject),
      RouteList(b.preIncludeLocal, file, root, ToPreIncludeLocal))
  }

  /** The buckets after routing every file of the list in order, with the interface flag given. */
  function Classified(files: seq<FileEntry>, root: string, iface: bool): (b: BuildFiles)
    ensures b.isInterface == iface
  {
    if files == [] then BuildFiles(iface, map[], map[], [], [], [])
    else Route(Classified(files[..|files| - 1], root, iface), files[|files| - 1], root)
  }

  /** What ClassifyFiles returns for a file list of a context rooted at `root`. */
  function Classify(files: seq<FileEntry>, root: string): (b: BuildFiles)
    ensures b.isInterface <==> forall i :: 0 <= i < |files| ==> !CompilesSource(files[i])
    ensures b.library == Collect(files, root, "library")
    ensures b.objects == Collect(files, root, "object")
    ensures b.preIncludeLocal == Collect(files, root, "preIncludeLocal")
  {
    ClassifiedLists(files, root, IsInterfaceFiles(files));
    Classified(files, root, IsInterfaceFiles(files))
  }

  /** AddContextLanguage on a list of languages: ALL and languages already listed are not added. */
  function RegisterLanguage(languages: seq<Language>, language: Language): (r: seq<Language>)
    ensures languages <= r && |r| <= |languages| + 1
    ensures forall l :: l in r <==> l in languages || (l == language && l != All)
  {
    if language == All || language in languages then languages else languages + [language]
  }

  /** The context languages after the source files of `files` registered theirs, in order. */
  function RegisterSources(languages: seq<Language>, files: seq<FileEntry>): seq<Language>
  {
    if files == [] then languages
    else
      var r := RegisterSources(languages, files[..|files| - 1]);
      var file := files[|files| - 1];
      if BucketOfFile(file) == ToSource then RegisterLanguage(r, GetLanguage(file)) else r
  }

  // Reference definitions: each bucket as a filter over the file list.

  /** The prefixed paths of the non-template files of exactly this category, in order. */
  function Collect(files: seq<FileEntry>, root: string, category: string): seq<string>
  {
    if files == [] then []
    else
      var r := Collect(files[..|files| - 1], root, category);
      var file := files[|files| - 1];
      if file.attr != "template" && file.category == category then r + [AddRootPrefix(root, file.file)] else r
  }

  /** A source file (not a template, one of the source categories) with the given language. */
  predicate IsSourceOf(file: FileEntry, language: Language)
  {
    BucketOfFile(file) == ToSource && GetLanguage(file) == language
  }

  /** The prefixed paths of the source files of one language, in order. */
  function SourcesOf(files: seq<FileEntry>, root: string, language: Language): seq<string>
  {
    if files == [] then []
    else
      var r := SourcesOf(files[..|files| - 1], root, language);
      var file := files[|files| - 1];
      if IsSourceOf(file, language) then r + [AddRootPrefix(root, file.file)] else r
  }

  /** A header or include entry (not a template) that falls into the given bucket. */
  predicate IsIncludeOf(file: FileEntry, iface: bool, key: IncludeKey)
  {
    BucketOfFile(file) == ToInclude && IncludeKeyOf(file, iface) == key
  }

  /** The prefixed include directories the entries of one bucket contribute, in order, repeats kept. */
  function IncludeEntries(files: seq<FileEntry>, root: string, iface: bool, key: IncludeKey): seq<string>
  {
    if files == [] then []
    else
      var r := IncludeEntries(files[..|files| - 1], root, iface, key);
      var file := files[|files| - 1];
      if IsIncludeOf(file, iface, key) then r + [AddRootPrefix(root, IncludePath(file))] else r
  }

  /** The list without its template files. */
  function NonTemplates(files: seq<FileEntry>): (r: seq<FileEntry>)
    ensures forall f :: f in r <==> f in files && f.attr != "template"
  {
    if files == [] then []
    else
      var r := NonTemplates(files[..|files| - 1]);
      var file := files[|files| - 1];
      assert files == files[..|files| - 1] + [file];
      if file.attr != "template" then r + [file] else r
  }

  /** The switch sends exactly the eight header and include categories to the include buckets. */
  lemma IncludeCategories(category: string)
    ensures BucketOf(category) == ToInclude <==>
      category == "header" || category == "headerAsm" || category == "headerC" || category == "headerCpp" ||
      category == "include" || category == "includeAsm" || category == "includeC" || category == "includeCpp"
  {
  }

  /** The switch sends exactly the four source categories to the source buckets. */
  lemma SourceCategories(category: string)
    ensures BucketOf(category) == ToSource <==>
      category == "source" || category == "sourceAsm" || category == "sourceC" || category == "sourceCpp"
  {
  }

  /** Every source category contains "source", so its files also make the list compiled. */
  lemma SourceCategoriesContainSource(category: string)
    ensures BucketOf(category) == ToSource ==> Contains(category, "source")
  {
  }

  /** Libraries, objects and local pre-includes each have exactly one category. */
  lemma ListCategories(category: string)
    ensures BucketOf(category) == ToLibrary <==> category == "library"
    ensures BucketOf(category) == ToObject <==> category == "object"
    ensures BucketOf(category) == ToPreIncludeLocal <==> category == "preIncludeLocal"
  {
  }

  /** Global pre-includes have exactly one category. */
  lemma GlobalPreIncludeCategory(category: string)
    ensures BucketOf(category) == ToPreIncludeGlobal <==> category == "preIncludeGlobal"
  {
  }

  /**
   * Each include bucket is the duplicate-free first-occurrence list of the
   * directories its entries contribute; a bucket exists exactly when some
   * entry falls into it.
   */
  lemma {:induction false} ClassifiedIncludes(files: seq<FileEntry>, root: string, iface: bool, key: IncludeKey)
    ensures Lookup(Classified(files, root, iface).includes, key) == Appended([], IncludeEntries(files, root, iface, key))
    ensures key in Classified(files, root, iface).includes <==> IncludeEntries(files, root, iface, key) != []
  {
    if files != [] {
      var init := files[..|files| - 1];
      var file := files[|files| - 1];
      ClassifiedIncludes(init, root, iface, key);
      var e := IncludeEntries(init, root, iface, key);
      IncludeStep(Classified(init, root, iface).includes, file, root, iface, key);
      if IsIncludeOf(file, iface, key) {
        var x := AddRootPrefix(root, IncludePath(file));
        AppendedSnoc([], e, x);
        AppendedMembers([], e + [x]);
      }
    }
  }

  /** The effect of one routing step on one include bucket. */
  lemma IncludeStep(m: map<IncludeKey, seq<string>>, file: FileEntry, root: string, iface: bool, key: IncludeKey)
    ensures Lookup(RouteIncludes(m, file, root, iface), key) ==
      if IsIncludeOf(file, iface, key) then Appended(Lookup(m, key), [AddRootPrefix(root, IncludePath(file))])
      else Lookup(m, key)
    ensures key in RouteIncludes(m, file, root, iface) <==> key in m || IsIncludeOf(file, iface, key)
  {
  }

  /** Appending uniquely a list and then one element is appending uniquely the extended list. */
  lemma AppendedSnoc<T>(list: seq<T>, elements: seq<T>, x: T)
    ensures Appended(list, elements + [x]) == Appended(Appended(list, elements), [x])
  {
    assert (elements + [x])[..|elements|] == elements;
  }

  /** Each source bucket holds the sources of its language in input order; a bucket exists only when not empty. */
  lemma {:induction false} ClassifiedSources(files: seq<FileEntry>, root: string, iface: bool, language: Language)
    ensures Lookup(Classified(files, root, iface).source, language) == SourcesOf(files, root, language)
    ensures language in Classified(files, root, iface).source <==> SourcesOf(files, root, language) != []
  {
    if files != [] {
      ClassifiedSources(files[..|files| - 1], root, iface, language);
    }
  }

  /** Libraries, objects and local pre-includes are the files of exactly that category, in input order. */
  lemma {:induction false} ClassifiedLists(files: seq<FileEntry>, root: string, iface: bool)
    ensures Classified(files, root, iface).library == Collect(files, root, "library")
    ensures Classified(files, root, iface).objects == Collect(files, root, "object")
    ensures Classified(files, root, iface).preIncludeLocal == Collect(files, root, "preIncludeLocal")
  {
    if files != [] {
      ClassifiedLists(files[..|files| - 1], root, iface);
      ListCategories(files[|files| - 1].category);
    }
  }

  /** Templates change nothing: dropping them gives the same buckets with the same interface flag. */
  lemma {:induction false} ClassifiedIgnoresTemplates(files: seq<FileEntry>, root: string, iface: bool)
    ensures Classified(NonTemplates(files), root, iface) == Classified(files, root, iface)
  {
    if files != [] {
      var init := files[..|files| - 1];
      var file := files[|files| - 1];
      ClassifiedIgnoresTemplates(init, root, iface);
      if file.attr != "template" {
        assert (NonTemplates(init) + [file])[..|NonTemplates(init)|] == NonTemplates(init);
      }
    }
  }

  /** The first loop of ClassifyFiles: the files form an interface unless one of them compiles as source. */
  method ScanInterface(files: seq<FileEntry>) returns (iface: bool)
    ensures iface == IsInterfaceFiles(files)
  {
    iface := true;
    var i := 0;
    while i < |files|
      invariant 0 <= i <= |files|
      invariant forall j :: 0 <= j < i ==> !CompilesSource(files[j])
    {
      if Contains(files[i].category, "source") && files[i].attr != "template" {
        iface := false;
        return;
      }
      i := i + 1;
    }
  }

  /** What ClassifyFiles carries from one file to the next: the buckets, the context's languages and its global pre-includes. */
  datatype ClassifyState = ClassifyState(b: BuildFiles, languages: seq<Language>, preIncludes: seq<string>)

  /** One iteration of the classification loop over all three parts of the state. */
  function StepState(s: ClassifyState, file: FileEntry, root: string): ClassifyState
  {
    ClassifyState(Route(s.b, file, root),
      if BucketOfFile(file) == ToSource then RegisterLanguage(s.languages, GetLanguage(file)) else s.languages,
      s.preIncludes + if BucketOfFile(file) == ToPreIncludeGlobal then [AddRootPrefix(root, file.file)] else [])
  }

  /** The state after the loop has visited `files`, starting from empty buckets. */
  function Run(files: seq<FileEntry>, root: string, iface: bool, languages: seq<Language>, pre: seq<string>): ClassifyState
  {
    if files == [] then ClassifyState(BuildFiles(iface, map[], map[], [], [], []), languages, pre)
    else StepState(Run(files[..|files| - 1], root, iface, languages, pre), files[|files| - 1], root)
  }

  lemma RunStep(files: seq<FileEntry>, k: nat, root: string, iface: bool, languages: seq<Language>, pre: seq<string>)
    requires k < |files|
    ensures Run(files[..k + 1], root, iface, languages, pre) == StepState(Run(files[..k], root, iface, languages, pre), files[k], root)
  {
    assert files[..k + 1][..k] == files[..k];
  }

  /** The combined loop state splits into the three separate specifications. */
  lemma {:induction false} RunParts(files: seq<FileEntry>, root: string, iface: bool, languages: seq<Language>, pre: seq<string>)
    ensures Run(files, root, iface, languages, pre) ==
      ClassifyState(Classified(files, root, iface), RegisterSources(languages, files), pre + Collect(files, root, "preIncludeGlobal"))
  {
    if files != [] {
      RunParts(files[..|files| - 1], root, iface, languages, pre);
      GlobalPreIncludeCategory(files[|files| - 1].category);
    }
  }

  /** A non-empty bucket's key is the key of one of its entries. */
  lemma {:induction false} IncludeEntriesKey(files: seq<FileEntry>, root: string, iface: bool, key: IncludeKey)
    requires IncludeEntries(files, root, iface, key) != []
    ensures key.scope == Interface <==> iface
  {
    var file := files[|files| - 1];
    if !IsIncludeOf(file, iface, key) {
      IncludeEntriesKey(files[..|files| - 1], root, iface, key);
    }
  }

  /** An interface list has no sources. */
  lemma {:induction false} SourcesOfInterface(files: seq<FileEntry>, root: string, language: Language)
    requires IsInterfaceFiles(files)
    ensures SourcesOf(files, root, language) == []
  {
    if files != [] {
      var file := files[|files| - 1];
      SourcesOfInterface(files[..|files| - 1], root, language);
      SourceCategoriesContainSource(file.category);
      assert !CompilesSource(files[|files| - 1]);
    }
  }

  /** Dropping templates does not change whether a list is interface-only. */
  lemma NonTemplatesInterface(files: seq<FileEntry>)
    ensures IsInterfaceFiles(NonTemplates(files)) == IsInterfaceFiles(files)
  {
    var r := NonTemplates(files);
    if IsInterfaceFiles(files) {
      forall i | 0 <= i < |r| ensures !CompilesSource(r[i]) {
        assert r[i] in files;
      }
    } else {
      var i :| 0 <= i < |files| && CompilesSource(files[i]);
      assert files[i] in r;
    }
  }

  /**
   * ClassifyFiles' guarantees: the list is interface-only exactly when no
   * non-template file has a category containing "source", and then it has no
   * sources; include buckets are scoped INTERFACE exactly in an interface list;
   * every include bucket is duplicate-free and holds exactly the directories
   * of its entries; sources, libraries, objects and local pre-includes are the
   * matching files in input order; templates are ignored.
   */
  lemma ClassifyFacts(files: seq<FileEntry>, root: string)
    ensures var b := Classify(files, root);
      (b.isInterface <==> forall i :: 0 <= i < |files| ==> !(Contains(files[i].category, "source") && files[i].attr != "template")) &&
      (b.isInterface ==> |b.source| == 0) &&
      (forall key :: key in b.includes ==> (key.scope == Interface <==> b.isInterface)) &&
      (forall key :: key in b.includes ==> NoDup(b.includes[key])) &&
      (forall key, x :: x in Lookup(b.includes, key) <==> x in IncludeEntries(files, root, b.isInterface, key)) &&
      (forall l :: Lookup(b.source, l) == SourcesOf(files, root, l)) &&
      b.library == Collect(files, root, "library") &&
      b.objects == Collect(files, root, "object") &&
      b.preIncludeLocal == Collect(files, root, "preIncludeLocal") &&
      Classify(NonTemplates(files), root) == b
  {
    var iface := IsInterfaceFiles(files);
    var b := Classify(files, root);
    forall key | key in b.includes
      ensures key.scope == Interface <==> iface
      ensures NoDup(b.includes[key])
    {
      ClassifiedIncludes(files, root, iface, key);
      IncludeEntriesKey(files, root, iface, key);
      AppendedKeepsNoDup([], IncludeEntries(files, root, iface, key));
    }
    forall key, x
      ensures x in Lookup(b.includes, key) <==> x in IncludeEntries(files, root, iface, key)
    {
      ClassifiedIncludes(files, root, iface, key);
      AppendedMembers([], IncludeEntries(files, root, iface, key));
    }
    forall l
      ensures Lookup(b.source, l) == SourcesOf(files, root, l)
      ensures iface ==> l !in b.source
    {
      ClassifiedSources(files, root, iface, l);
      if iface {
        SourcesOfInterface(files, root, l);
      }
    }
    if iface {
      assert b.source.Keys == {};
    }
    ClassifiedLists(files, root, iface);
    NonTemplatesInterface(files);
    ClassifiedIgnoresTemplates(files, root, iface);
  }

  /**
   * RegisterLanguage keeps the list as a prefix, never adds ALL, never adds a
   * duplicate, and adds exactly the new non-ALL language.
   */
  lemma RegisterLanguageFacts(languages: seq<Language>, language: Language)
    ensures var r := RegisterLanguage(languages, language);
      languages <= r &&
      (All in r ==> All in languages) &&
      (NoDup(languages) ==> NoDup(r)) &&
      (forall l :: l in r <==> (l in languages || (l == language && l != All)))
  {
  }

  /** Some source file of the list has this language. */
  predicate HasSourceOf(files: seq<FileEntry>, language: Language)
  {
    exists i :: 0 <= i < |files| && IsSourceOf(files[i], language)
  }

  /**
   * The context's language list after a classification: the old list is kept
   * as a prefix, ALL is never added, no duplicate is added, and a language is
   * added exactly when some source file has it.
   */
  lemma {:induction false} RegisterSourcesFacts(languages: seq<Language>, files: seq<FileEntry>)
    ensures var r := RegisterSources(languages, files);
      languages <= r &&
      (All in r ==> All in languages) &&
      (NoDup(languages) ==> NoDup(r)) &&
      (forall l :: l in r <==> (l in languages || (l != All && HasSourceOf(files, l))))
  {
    if files != [] {
      var init := files[..|files| - 1];
      var file := files[|files| - 1];
      RegisterSourcesFacts(languages, init);
      var r0 := RegisterSources(languages, init);
      if BucketOfFile(file) == ToSource {
        RegisterLanguageFacts(r0, GetLanguage(file));
      }
      forall l ensures HasSourceOf(files, l) <==> (HasSourceOf(init, l) || IsSourceOf(file, l)) {
        HasSourceOfSnoc(files, l);
      }
    }
  }

  lemma HasSourceOfSnoc(files: seq<FileEntry>, l: Language)
    requires files != []
    ensures HasSourceOf(files, l) <==> (HasSourceOf(files[..|files| - 1], l) || IsSourceOf(files[|files| - 1], l))
  {
    var init := files[..|files| - 1];
    if HasSourceOf(files, l) {
      var i :| 0 <= i < |files| && IsSourceOf(files[i], l);
      if i < |init| {
        assert files[i] == init[i];
        assert HasSourceOf(init, l);
      }
    }
    if HasSourceOf(init, l) {
      var i :| 0 <= i < |init| && IsSourceOf(init[i], l);
      assert files[i] == init[i];
      assert HasSourceOf(files, l);
    }
    if IsSourceOf(files[|files| - 1], l) {
      assert HasSourceOf(files, l);
    }
  }

  // ---------------------------------------------------------------------------
  // The context (buildcontent.go:381-430, 615-625)
  // ---------------------------------------------------------------------------

  /** A group of the build description: its name, files, child groups and abstractions. */
  datatype Group = Group(group: string, files: seq<FileEntry>, groups: seq<Group>, abstractions: CompilerAbstractions)

  /** A component of the build description: its identifier, files and abstractions. */
  datatype Component = Component(component: string, files: seq<FileEntry>, abstractions: CompilerAbstractions)

  /**
   * One context being generated. The build description (root, toolchain,
   * context-level abstractions and options, groups, components) is fixed;
   * the language list, the global pre-includes, the group target names and
   * the global libraries grow as the generator walks the description.
   */
  class Cbuild {
    const contextRoot: string
    const toolchain: string
    const abstractions: CompilerAbstractions
    const misc: Misc
    const groups: seq<Group>
    const components: seq<Component>
    var languages: seq<Language>
    var preIncludeGlobal: seq<string>
    var buildGroups: seq<string>
    var libraryGlobal: seq<string>

    /** A context with nothing discovered yet. */
    constructor(contextRoot: string, toolchain: string, abstractions: CompilerAbstractions, misc: Misc,
                groups: seq<Group>, components: seq<Component>)
      ensures this.contextRoot == contextRoot && this.toolchain == toolchain
      ensures this.abstractions == abstractions && this.misc == misc
      ensures this.groups == groups && this.components == components
      ensures languages == [] && preIncludeGlobal == [] && buildGroups == [] && libraryGlobal == []
    {
      this.contextRoot := contextRoot;
      this.toolchain := toolchain;
      this.abstractions := abstractions;
      this.misc := misc;
      this.groups := groups;
      this.components := components;
      languages := [];
      preIncludeGlobal := [];
      buildGroups := [];
      libraryGlobal := [];
    }

    /** AddContextLanguage: append the language unless it is ALL or already listed. */
    method AddContextLanguage(language: Language)
      modifies this`languages
      ensures languages == RegisterLanguage(old(languages), language)
    {
      if language == All {
        return;
      }
      for i := 0 to |languages|
        invariant forall j :: 0 <= j < i ==> languages[j] != language
      {
        if languages[i] == language {
          return;
        }
      }
      languages := languages + [language];
    }

    /**
     * ClassifyFiles: decide whether the list is interface-only, then route
     * each non-template file to its bucket, registering the languages of the
     * sources and collecting the global pre-includes on the context.
     */
    method ClassifyFiles(files: seq<FileEntry>) returns (b: BuildFiles)
      modifies this`languages, this`preIncludeGlobal
      ensures b == Classify(files, contextRoot)
      ensures languages == RegisterSources(old(languages), files)
      ensures preIncludeGlobal == old(preIncludeGlobal) + Collect(files, contextRoot, "preIncludeGlobal")
    {
      var iface := ScanInterface(files);
      b := RouteFiles(files, iface);
      RunParts(files, contextRoot, iface, old(languages), old(preIncludeGlobal));
    }

    /** The routing loop of ClassifyFiles, over all files in order. */
    method RouteFiles(files: seq<FileEntry>, iface: bool) returns (b: BuildFiles)
      modifies this`languages, this`preIncludeGlobal
      ensures ClassifyState(b, languages, preIncludeGlobal) ==
        Run(files, contextRoot, iface, old(languages), old(preIncludeGlobal))
    {
      b := BuildFiles(iface, map[], map[], [], [], []);
      for k := 0 to |files|
        invariant ClassifyState(b, languages, preIncludeGlobal) == Run(files[..k], contextRoot, iface, old(languages), old(preIncludeGlobal))
      {
        RunStep(files, k, contextRoot, iface, old(languages), old(preIncludeGlobal));
        b := RouteFile(b, files[k]);
      }
      assert files[..|files|] == files;
    }

    /** The body of the routing loop: skip a template, otherwise switch on the category. */
    method RouteFile(b: BuildFiles, file: FileEntry) returns (r: BuildFiles)
      modifies this`languages, this`preIncludeGlobal
      ensures r == Route(b, file, contextRoot)
      ensures languages == if BucketOfFile(file) == ToSource then RegisterLanguage(old(languages), GetLanguage(file)) else old(languages)
      ensures preIncludeGlobal == old(preIncludeGlobal) +
        if BucketOfFile(file) == ToPreIncludeGlobal then [AddRootPrefix(contextRoot, file.file)] else []
    {
      r := b;
      if file.attr == "template" {
        return;
      }
      match BucketOf(file.category)
      case ToInclude =>
        var scope := if b.isInterface then Interface else GetScope(file);
        var language := GetLanguage(file);
        var includePath := Paths.Clean(file.file);
        if Contains(file.category, "header") {
          includePath := Paths.Dir(includePath);
        }
        var key := IncludeKey(scope, language);
        var bucket := AppendUniquely(Lookup(b.includes, key), [AddRootPrefix(contextRoot, includePath)]);
        r := b.(includes := b.includes[key := bucket]);
      case ToSource =>
        var language := GetLanguage(file);
        AddContextLanguage(language);
        r := b.(source := b.source[language := Lookup(b.source, language) + [AddRootPrefix(contextRoot, file.file)]]);
      case ToLibrary =>
        r := b.(library := b.library + [AddRootPrefix(contextRoot, file.file)]);
      case ToObject =>
        r := b.(objects := b.objects + [AddRootPrefix(contextRoot, file.file)]);
      case ToPreIncludeLocal =>
        r := b.(preIncludeLocal := b.preIncludeLocal + [AddRootPrefix(contextRoot, file.file)]);
      case ToPreIncludeGlobal =>
        preIncludeGlobal := preIncludeGlobal + [AddRootPrefix(contextRoot, file.file)];
      case Nowhere =>
    }
  }
}
