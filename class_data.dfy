/** One class that may declare dependency properties (ClassData.cs): the walk up
    its base types that decides the toolkit, the facts about its declaration,
    the naming conventions in force for it, its property records, and the frame
    of the supplemental source file written for it. */
module Classes {
  import opened Wrappers
  import opened Text
  import opened Syntax
  import opened AttributeHelper
  import opened Decorations
  import opened DecorationAttributes
  import opened DecorationLookup
  import opened Owners
  import opened Properties
  import opened Analysis
  import opened PropertyEmission

  // ---------------------------------------------------------------- the base-type walk

  /** What the walk up the base types finds out. */
  datatype Lineage = Lineage(toolkit: Toolkit, isUIElement: bool, isFrameworkElement: bool)

  /** The walk goes on only through base types whose namespace is neither missing nor empty. */
  predicate HasNamespace(b: BaseType) {
    b.ns.Some? && b.ns.value != ""
  }

  function BaseFullName(b: BaseType): string
    requires HasNamespace(b)
  {
    b.ns.value + "." + b.name
  }

  /** The full names the walk visits, nearest base first, up to the first base
      type without a namespace. */
  function Visited(bases: seq<BaseType>): seq<string> {
    if bases == [] || !HasNamespace(bases[0]) then []
    else [BaseFullName(bases[0])] + Visited(bases[1..])
  }

  /** The root class each toolkit's objects derive from. UWP has none: its root
      is never recognised. */
  function ToolkitRoot(fullName: string): Option<Toolkit> {
    if fullName == "System.Windows.DependencyObject" then Some(Wpf)
    else if fullName == "Microsoft.UI.Xaml.DependencyObject" then Some(WinUI)
    else if fullName == "Avalonia.AvaloniaObject" then Some(Avalonia)
    else None
  }

  predicate IsFrameworkElementName(fullName: string) {
    fullName == "System.Windows.FrameworkElement" || fullName == "Microsoft.UI.Xaml.FrameworkElement"
  }

  predicate IsUIElementName(fullName: string) {
    fullName == "System.Windows.UIElement" || fullName == "Microsoft.UI.Xaml.UIElement"
  }

  /** The toolkit of the last root among `names`: each one found overwrites the
      one before. */
  function LastToolkit(names: seq<string>): Toolkit {
    if names == [] then Unknown
    else
      match ToolkitRoot(names[|names| - 1])
      case Some(t) => t
      case None => LastToolkit(names[..|names| - 1])
  }

  /** What a walk over `names` concludes. */
  function LineageOf(names: seq<string>): Lineage {
    Lineage(
      LastToolkit(names),
      exists k :: 0 <= k < |names| && IsUIElementName(names[k]),
      exists k :: 0 <= k < |names| && IsFrameworkElementName(names[k]))
  }

  /** Visiting one more name. */
  lemma LineageSnoc(names: seq<string>, x: string)
    ensures LineageOf(names + [x]) ==
            Lineage(
              if ToolkitRoot(x).Some? then ToolkitRoot(x).value else LineageOf(names).toolkit,
              LineageOf(names).isUIElement || IsUIElementName(x),
              LineageOf(names).isFrameworkElement || IsFrameworkElementName(x))
  {
    assert (names + [x])[..|names|] == names;
    assert (names + [x])[|names|] == x;
    if IsUIElementName(x) {
      assert IsUIElementName((names + [x])[|names|]);
    }
    if IsFrameworkElementName(x) {
      assert IsFrameworkElementName((names + [x])[|names|]);
    }
    assert forall k :: 0 <= k < |names| ==> (names + [x])[k] == names[k];
  }

  /** The walk in the constructor: from the nearest base type outwards, stopping
      at one without a namespace, setting each flag it meets. */
  method DetectLineage(bases: seq<BaseType>) returns (l: Lineage)
    ensures l == LineageOf(Visited(bases))
  {
    l := Lineage(Unknown, false, false);
    ghost var seen: seq<string> := [];
    var i := 0;
    while i < |bases|
      invariant 0 <= i <= |bases|
      invariant Visited(bases) == seen + Visited(bases[i..])
      invariant l == LineageOf(seen)
    {
      var b := bases[i];
      if b.ns.None? || b.ns.value == "" {
        break;
      }
      var fullName := b.ns.value + "." + b.name;
      VisitedStep(bases, i, seen);
      ghost var prev := l;

      if IsFrameworkElementName(fullName) {
        l := l.(isFrameworkElement := true);
      }
      if IsUIElementName(fullName) {
        l := l.(isUIElement := true);
      }
      var root := ToolkitRoot(fullName);
      if root.Some? {
        l := l.(toolkit := root.value);
      }
      LineageStep(seen, fullName, prev, l);
      seen := seen + [fullName];
      i := i + 1;
    }
    assert seen + [] == seen;
  }

  /** Visiting one more name, in terms of the walk's flags before and after it. */
  lemma LineageStep(seen: seq<string>, x: string, prev: Lineage, next: Lineage)
    requires prev == LineageOf(seen)
    requires next.toolkit == (if ToolkitRoot(x).Some? then ToolkitRoot(x).value else prev.toolkit)
    requires next.isUIElement == (prev.isUIElement || IsUIElementName(x))
    requires next.isFrameworkElement == (prev.isFrameworkElement || IsFrameworkElementName(x))
    ensures next == LineageOf(seen + [x])
  {
    LineageSnoc(seen, x);
  }

  /** The walk moves one base type on. */
  lemma VisitedStep(bases: seq<BaseType>, i: nat, seen: seq<string>)
    requires i < |bases| && HasNamespace(bases[i])
    requires Visited(bases) == seen + Visited(bases[i..])
    ensures Visited(bases) == (seen + [BaseFullName(bases[i])]) + Visited(bases[i + 1..])
  {
    assert bases[i..][1..] == bases[i + 1..];
    assert Visited(bases[i..]) == [BaseFullName(bases[i])] + Visited(bases[i + 1..]);
  }

  /** The walk visits exactly the leading base types that have a namespace, and
      stops at the first that has none. */
  lemma {:induction false} VisitedSpec(bases: seq<BaseType>)
    ensures |Visited(bases)| <= |bases|
    ensures forall j :: 0 <= j < |Visited(bases)| ==>
              HasNamespace(bases[j]) && Visited(bases)[j] == BaseFullName(bases[j])
    ensures |Visited(bases)| < |bases| ==> !HasNamespace(bases[|Visited(bases)|])
  {
    if bases != [] && HasNamespace(bases[0]) {
      VisitedSpec(bases[1..]);
    }
  }

  /** With no root among the visited names the toolkit stays unknown, and only then. */
  lemma {:induction false} NoRootUnknown(names: seq<string>)
    ensures LastToolkit(names) == Unknown <==> forall j :: 0 <= j < |names| ==> ToolkitRoot(names[j]).None?
  {
    if names != [] {
      var init := names[..|names| - 1];
      NoRootUnknown(init);
      assert forall j :: 0 <= j < |init| ==> init[j] == names[j];
    }
  }

  /** A root with no root after it decides the toolkit. */
  lemma {:induction false} LastRootDecides(names: seq<string>, i: nat)
    requires i < |names| && ToolkitRoot(names[i]).Some?
    requires forall j :: i < j < |names| ==> ToolkitRoot(names[j]).None?
    ensures LastToolkit(names) == ToolkitRoot(names[i]).value
    decreases |names|
  {
    if i < |names| - 1 {
      var init := names[..|names| - 1];
      assert ToolkitRoot(names[|names| - 1]).None?;
      assert init[i] == names[i];
      assert forall j :: i < j < |init| ==> init[j] == names[j];
      LastRootDecides(init, i);
    }
  }

  /** The toolkit is the one whose root lies farthest out among the visited
      names; with no root among them it stays unknown. */
  lemma OutermostRootWins(names: seq<string>)
    ensures LastToolkit(names) == Unknown <==> forall j :: 0 <= j < |names| ==> ToolkitRoot(names[j]).None?
    ensures forall i :: 0 <= i < |names| && ToolkitRoot(names[i]).Some? &&
                        (forall j :: i < j < |names| ==> ToolkitRoot(names[j]).None?) ==>
                        LastToolkit(names) == ToolkitRoot(names[i]).value
  {
    NoRootUnknown(names);
    forall i | 0 <= i < |names| && ToolkitRoot(names[i]).Some? && (forall j :: i < j < |names| ==> ToolkitRoot(names[j]).None?)
      ensures LastToolkit(names) == ToolkitRoot(names[i]).value
    {
      LastRootDecides(names, i);
    }
  }

  /** No base class makes a class a UWP class. */
  lemma {:induction false} UwpNeverDetected(names: seq<string>)
    ensures LastToolkit(names) != Uwp
  {
    if names != [] {
      UwpNeverDetected(names[..|names| - 1]);
    }
  }

  // ---------------------------------------------------------------- the owner

  /** The namespace as text: a missing one reads as empty. */
  function NamespaceText(ns: Option<string>): string {
    if ns.Some? then ns.value else ""
  }

  /** The qualified name: the namespace and a dot in front when there is one. */
  function FullNameOf(ns: string, name: string): string {
    if |ns| > 0 then ns + "." + name else name
  }

  /** Some enclosing node is a type declaration. */
  predicate IsInnerType(parents: seq<Scope>) {
    exists k :: 0 <= k < |parents| && parents[k].MemberScope? && parents[k].isTypeDecl
  }

  /** The nodes a decoration is looked up on: the declaration itself, then its parents. */
  function ScopeChain(decl: TypeDecl): seq<Scope> {
    [MemberScope(true, decl.attributeLists)] + decl.parents
  }

  /** Everything the constructor computes before it analyses the members, given
      the decoration lookup. The four lookups run in order, and the first that
      throws ends it. */
  function OwnerFrom(decl: TypeDecl, lookup: Convention -> Result<Decoration>): Result<OwnerInfo> {
    var dv := lookup(DefaultValueName);
    var cc := lookup(CoerceCallbackName);
    var vc := lookup(ValidateCallbackName);
    var ch := lookup(PropertyChangedHandlerName);
    if dv.Err? then Err(dv.error)
    else if cc.Err? then Err(cc.error)
    else if vc.Err? then Err(vc.error)
    else if ch.Err? then Err(ch.error)
    else
      var ns := NamespaceText(decl.ns);
      var l := LineageOf(Visited(decl.bases));
      Ok(OwnerInfo(
        ns, decl.name, FullNameOf(ns, decl.name),
        l.toolkit, l.isUIElement, l.isFrameworkElement,
        Partial in decl.modifiers, decl.isClassDecl, IsInnerType(decl.parents),
        dv.value, cc.value, vc.value, ch.value,
        decl.usingsText, decl.identifierLoc))
  }

  /** `GetDecorationFrom` on the declaration, for each convention. */
  function LookupOn(decl: TypeDecl): Convention -> Result<Decoration> {
    c => DecorationFromChain(ScopeChain(decl), c)
  }

  /** The owner a declaration describes. */
  function OwnerOf(decl: TypeDecl): Result<OwnerInfo> {
    OwnerFrom(decl, LookupOn(decl))
  }

  /** The full name is the simple name, qualified by the namespace when there is one. */
  lemma OwnerNames(decl: TypeDecl, lookup: Convention -> Result<Decoration>)
    requires OwnerFrom(decl, lookup).Ok?
    ensures var o := OwnerFrom(decl, lookup).value;
            && o.name == decl.name
            && o.fullName[|o.fullName| - |o.name|..] == o.name
            && (decl.ns.None? || decl.ns.value == "" ==> o.fullName == o.name)
            && (decl.ns.Some? && decl.ns.value != "" ==>
                  o.fullName[..|decl.ns.value| + 1] == decl.ns.value + ".")
  {
    var o := OwnerFrom(decl, lookup).value;
    if o.namespace != "" {
      assert o.fullName == (o.namespace + ".") + o.name;
    }
  }

  /** Construction fails exactly when a decoration lookup throws, and otherwise
      every convention comes from its own lookup. */
  lemma OwnerDecorations(decl: TypeDecl, lookup: Convention -> Result<Decoration>)
    ensures OwnerFrom(decl, lookup).Err? <==> exists c: Convention :: lookup(c).Err?
    ensures OwnerFrom(decl, lookup).Ok? ==>
              forall c: Convention :: OwnerFrom(decl, lookup).value.DecorationFor(c) == lookup(c).value
  {
    if OwnerFrom(decl, lookup).Err? {
      if lookup(DefaultValueName).Err? {
      } else if lookup(CoerceCallbackName).Err? {
      } else if lookup(ValidateCallbackName).Err? {
      } else {
        assert lookup(PropertyChangedHandlerName).Err?;
      }
    } else {
      forall c: Convention ensures lookup(c).Ok? {
        match c
        case DefaultValueName =>
        case CoerceCallbackName =>
        case ValidateCallbackName =>
        case PropertyChangedHandlerName =>
      }
    }
  }

  /** A class with no decoration attribute on it or on anything around it uses
      the default conventions. */
  lemma UndecoratedClassUsesDefaults(decl: TypeDecl)
    requires forall s, a, c: Convention :: s in ScopeChain(decl) && a in Flatten(ScopeLists(s)) ==>
               !NameMatches(a, AttributeTypeName(c))
    ensures OwnerOf(decl).Ok?
    ensures forall c: Convention :: OwnerOf(decl).value.DecorationFor(c) == Default(c)
  {
    var lookup := LookupOn(decl);
    forall c: Convention ensures lookup(c) == Ok(Default(c)) {
      UnmarkedScopesPassedOver(ScopeChain(decl), [], c);
    }
    OwnerDecorations(decl, lookup);
  }

  /** The owner's toolkit is the outermost root its base types reach, never UWP. */
  lemma OwnerToolkit(decl: TypeDecl, lookup: Convention -> Result<Decoration>)
    requires OwnerFrom(decl, lookup).Ok?
    ensures OwnerFrom(decl, lookup).value.toolkit == LastToolkit(Visited(decl.bases))
    ensures OwnerFrom(decl, lookup).value.toolkit != Uwp
  {
    UwpNeverDetected(Visited(decl.bases));
  }

  // ---------------------------------------------------------------- the class

  /** A class and its property records, in declaration order. */
  datatype ClassData = ClassData(info: OwnerInfo, properties: seq<PropertyData>)

  /** The current records of a list of properties. */
  function Records(ps: seq<PropertyData>): (r: seq<PropertyRecord>)
    reads set p | p in ps
    ensures |r| == |ps| && forall k :: 0 <= k < |ps| ==> r[k] == ps[k].Record()
  {
    seq(|ps|, k requires 0 <= k < |ps| reads ps => ps[k].Record())
  }

  /** A class as values: its owner facts and its records as they stand. */
  datatype ClassSnapshot = ClassSnapshot(info: OwnerInfo, records: seq<PropertyRecord>)

  function Snapshot(cd: ClassData): ClassSnapshot
    reads set p | p in cd.properties
  {
    ClassSnapshot(cd.info, Records(cd.properties))
  }

  /** What the constructor builds from a declaration, or the exception it throws. */
  function ClassOf(decl: TypeDecl, prototypeOf: MethodDecl -> HandlerPrototype): Result<ClassSnapshot> {
    var o := OwnerOf(decl);
    if o.Err? then Err(o.error)
    else
      var a := Analyze(o.value, decl.members, prototypeOf);
      if a.Err? then Err(a.error) else Ok(ClassSnapshot(o.value, a.value))
  }

  /** Every record of a constructed class has that class as its owner, and the
      class is never a UWP one. */
  lemma ClassOfOwned(decl: TypeDecl, prototypeOf: MethodDecl -> HandlerPrototype)
    requires ClassOf(decl, prototypeOf).Ok?
    ensures OwnedBy(ClassOf(decl, prototypeOf).value.info, ClassOf(decl, prototypeOf).value.records)
    ensures ClassOf(decl, prototypeOf).value.info.toolkit != Uwp
  {
    AnalyzeOwned(OwnerOf(decl).value, decl.members, prototypeOf);
    OwnerToolkit(decl, LookupOn(decl));
  }

  /** The constructor: the walk, the shape flags, the four conventions, and
      finally the member analysis. */
  method NewClassData(decl: TypeDecl, prototypeOf: MethodDecl -> HandlerPrototype) returns (r: Result<ClassData>)
    ensures r.Err? <==> ClassOf(decl, prototypeOf).Err?
    ensures r.Err? ==> r.error == ClassOf(decl, prototypeOf).error
    ensures r.Ok? ==> Snapshot(r.value) == ClassOf(decl, prototypeOf).value
    ensures r.Ok? ==> forall p :: p in r.value.properties ==> fresh(p)
    ensures r.Ok? ==> forall a, b :: 0 <= a < b < |r.value.properties| ==> r.value.properties[a] != r.value.properties[b]
  {
    var ns := if decl.ns.Some? then decl.ns.value else "";
    var fullName := if |ns| > 0 then ns + "." + decl.name else decl.name;
    var lineage := DetectLineage(decl.bases);
    var isPartial := Partial in decl.modifiers;
    var isInner := IsInnerType(decl.parents);
    var chain := [MemberScope(true, decl.attributeLists)] + decl.parents;
    var dv := GetDecorationFrom(chain, DefaultValueName);
    if dv.Err? {
      return Err(dv.error);
    }
    var cc := GetDecorationFrom(chain, CoerceCallbackName);
    if cc.Err? {
      return Err(cc.error);
    }
    var vc := GetDecorationFrom(chain, ValidateCallbackName);
    if vc.Err? {
      return Err(vc.error);
    }
    var ch := GetDecorationFrom(chain, PropertyChangedHandlerName);
    if ch.Err? {
      return Err(ch.error);
    }
    var info := OwnerInfo(
      ns, decl.name, fullName,
      lineage.toolkit, lineage.isUIElement, lineage.isFrameworkElement,
      isPartial, decl.isClassDecl, isInner,
      dv.value, cc.value, vc.value, ch.value,
      decl.usingsText, decl.identifierLoc);
    assert OwnerOf(decl) == Ok(info);
    var properties := AnalyzeProperties(info, decl.members, prototypeOf);
    if properties.Err? {
      return Err(properties.error);
    }
    r := Ok(ClassData(info, properties.value));
    assert Records(properties.value) == Analyze(info, decl.members, prototypeOf).value;
  }

  // ---------------------------------------------------------------- the supplemental file

  /** The lines before the first property: the nullable directive, the usings,
      and one line opening the namespace (when there is one) and the class. */
  function StartLines(info: OwnerInfo): seq<string> {
    ["#nullable enable", info.usingsText, Header(info)]
  }

  function Header(info: OwnerInfo): string {
    (if |info.namespace| > 0 then "namespace " + info.namespace + " { " else "")
    + "partial class " + info.name + " {"
  }

  /** The lines after the last property: two closing braces, whatever was opened. */
  function FinishLines(): seq<string> {
    ["} }", "#nullable restore"]
  }

  /** Every record's code in turn, each written by `emit`; the first that
      fails ends the file. */
  function EmitAll(recs: seq<PropertyRecord>, emit: PropertyRecord -> Result<seq<string>>): Result<seq<string>> {
    if recs == [] then Ok([])
    else
      var prev := EmitAll(recs[..|recs| - 1], emit);
      if prev.Err? then prev
      else
        var own := emit(recs[|recs| - 1]);
        if own.Err? then Err(own.error) else Ok(prev.value + own.value)
  }

  /** `GenerateSupplementalCode` as a whole. */
  function SupplementalCode(info: OwnerInfo, recs: seq<PropertyRecord>, emit: PropertyRecord -> Result<seq<string>>): Result<seq<string>> {
    var body := EmitAll(recs, emit);
    if body.Err? then Err(body.error) else Ok(StartLines(info) + body.value + FinishLines())
  }

  lemma EmitAllSnoc(recs: seq<PropertyRecord>, i: nat, emit: PropertyRecord -> Result<seq<string>>)
    requires i < |recs|
    ensures EmitAll(recs[..i + 1], emit) ==
            if EmitAll(recs[..i], emit).Err? then EmitAll(recs[..i], emit)
            else if emit(recs[i]).Err? then Err(emit(recs[i]).error)
            else Ok(EmitAll(recs[..i], emit).value + emit(recs[i]).value)
  {
    assert recs[..i + 1][..i] == recs[..i];
  }

  /** A failure stays a failure as more records follow. */
  lemma {:induction false} EmitAllErrSticky(recs: seq<PropertyRecord>, i: nat, emit: PropertyRecord -> Result<seq<string>>)
    requires i <= |recs| && EmitAll(recs[..i], emit).Err?
    ensures EmitAll(recs, emit) == EmitAll(recs[..i], emit)
    decreases |recs| - i
  {
    if i == |recs| {
      assert recs[..i] == recs;
    } else {
      EmitAllSnoc(recs, i, emit);
      EmitAllErrSticky(recs, i + 1, emit);
    }
  }

  /** The file is written only when every record's code is, and otherwise the
      first record that fails decides the error. */
  lemma {:induction false} EmitAllFirstFailure(recs: seq<PropertyRecord>, emit: PropertyRecord -> Result<seq<string>>)
    ensures EmitAll(recs, emit).Ok? <==> forall k :: 0 <= k < |recs| ==> emit(recs[k]).Ok?
    ensures forall k :: 0 <= k < |recs| && emit(recs[k]).Err? &&
                        (forall j :: 0 <= j < k ==> emit(recs[j]).Ok?) ==>
                        EmitAll(recs, emit) == Err(emit(recs[k]).error)
  {
    if recs != [] {
      var init := recs[..|recs| - 1];
      EmitAllFirstFailure(init, emit);
      assert forall j :: 0 <= j < |init| ==> init[j] == recs[j];
    }
  }

  /** Each record's code appears whole, in order. */
  lemma {:induction false} EmitAllConcat(recs: seq<PropertyRecord>, more: seq<PropertyRecord>, emit: PropertyRecord -> Result<seq<string>>)
    requires EmitAll(recs + more, emit).Ok?
    ensures EmitAll(recs, emit).Ok? && EmitAll(more, emit).Ok?
    ensures EmitAll(recs + more, emit).value == EmitAll(recs, emit).value + EmitAll(more, emit).value
    decreases |more|
  {
    if more == [] {
      assert recs + more == recs;
    } else {
      var init := more[..|more| - 1];
      var last := more[|more| - 1];
      assert recs + more == (recs + init) + [last];
      assert (recs + more)[..|recs + more| - 1] == recs + init;
      EmitAllConcat(recs, init, emit);
    }
  }

  /** `GenerateSupplementalCode`: the class frame around each record's code. */
  method GenerateSupplementalCode(cd: ClassData) returns (r: Result<seq<string>>)
    ensures r == SupplementalCode(cd.info, Records(cd.properties), GenerateDependencyProperty)
  {
    var recs := Records(cd.properties);
    r := WriteFrame(cd.info, recs, GenerateDependencyProperty);
  }

  /** The loop of `GenerateSupplementalCode`, over the records' current values,
      with the emitter passed in. */
  method WriteFrame(info: OwnerInfo, recs: seq<PropertyRecord>, emit: PropertyRecord -> Result<seq<string>>)
      returns (r: Result<seq<string>>)
    ensures r == SupplementalCode(info, recs, emit)
  {
    var lines := StartLines(info);
    var i := 0;
    while i < |recs|
      invariant 0 <= i <= |recs|
      invariant EmitAll(recs[..i], emit).Ok?
      invariant lines == StartLines(info) + EmitAll(recs[..i], emit).value
    {
      EmitAllSnoc(recs, i, emit);
      var code := emit(recs[i]);
      if code.Err? {
        EmitAllErrSticky(recs, i + 1, emit);
        return Err(code.error);
      }
      lines := lines + code.value;
      i := i + 1;
    }
    assert recs[..i] == recs;
    r := Ok(lines + FinishLines());
  }

  /** The closing line shuts two braces. */
  lemma ClosingCount()
    ensures Occurrences(FinishLines()[0], '}') == 2
  {
    OccurrencesOne("", '}', " ");
    OccurrencesOne("", '}', "");
    OccurrencesConcat("} ", "}", '}');
    assert "} " == "" + ['}'] + " ";
    assert "}" == "" + ['}'] + "";
    assert FinishLines()[0] == "} " + "}";
  }

  /** A header line (`namespace N { `, `partial class C {`) opens exactly one brace
      when neither its keyword, its name nor its tail holds one. */
  lemma HeaderOpensOne(keyword: string, name: string, tail: string)
    requires '{' !in keyword && '{' !in name && '{' !in tail
    ensures Occurrences(keyword + name + " {" + tail, '{') == 1
  {
    assert keyword + name + " {" + tail == (keyword + name + " ") + ['{'] + tail;
    OccurrencesOne(keyword + name + " ", '{', tail);
  }

  /** The closing line matches the braces the header opens only when the class
      sits in a namespace: without one, the header opens one brace and the
      closing line shuts two. */
  lemma FrameBalancedIffNamespace(info: OwnerInfo)
    requires '{' !in info.namespace && '{' !in info.name
    ensures Occurrences(Header(info), '{') == Occurrences(FinishLines()[0], '}') <==> |info.namespace| > 0
  {
    ClosingCount();
    var cls := "partial class " + info.name + " {";
    HeaderOpensOne("partial class ", info.name, "");
    assert cls == "partial class " + info.name + " {" + "";
    if |info.namespace| > 0 {
      var open := "namespace " + info.namespace + " { ";
      HeaderOpensOne("namespace ", info.namespace, " ");
      assert open == "namespace " + info.namespace + " {" + " ";
      OccurrencesConcat(open, cls, '{');
      assert Header(info) == open + cls;
    } else {
      assert Header(info) == cls;
    }
  }

  /** A written file starts with the frame's opening lines and ends with its
      closing ones, the first record's code right after the opening. */
  lemma SupplementalCodeFrame(info: OwnerInfo, recs: seq<PropertyRecord>, emit: PropertyRecord -> Result<seq<string>>)
    ensures SupplementalCode(info, recs, emit).Ok? <==> forall k :: 0 <= k < |recs| ==> emit(recs[k]).Ok?
    ensures SupplementalCode(info, recs, emit).Ok? ==>
              var lines := SupplementalCode(info, recs, emit).value;
              && |lines| >= 5
              && lines[..3] == StartLines(info)
              && lines[|lines| - 2..] == FinishLines()
              && (|recs| > 0 ==>
                    && emit(recs[0]).Ok?
                    && 3 + |emit(recs[0]).value| <= |lines|
                    && lines[3..3 + |emit(recs[0]).value|] == emit(recs[0]).value)
  {
    EmitAllFirstFailure(recs, emit);
    if SupplementalCode(info, recs, emit).Ok? {
      var body := EmitAll(recs, emit).value;
      var lines := StartLines(info) + body + FinishLines();
      assert lines[..3] == StartLines(info);
      assert lines[|lines| - 2..] == FinishLines();
      if |recs| > 0 {
        assert recs == [recs[0]] + recs[1..];
        EmitAllConcat([recs[0]], recs[1..], emit);
        assert [recs[0]][..0] == [];
        var first := emit(recs[0]).value;
        EmitAllSnoc([recs[0]], 0, emit);
        assert [recs[0]][..1] == [recs[0]];
        assert EmitAll([recs[0]], emit) == Ok([] + first);
        assert [] + first == first;
        assert body[..|first|] == first;
        assert lines[3..3 + |first|] == body[..|first|];
      }
    }
  }
}
