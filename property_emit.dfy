/** The code generated for one property record (PropertyData.cs, from
    `GenerateDependencyProperty` on): the Avalonia emitter, the emitter shared by
    WPF, UWP and WinUI, and the changed-handler lambda. Output is a sequence of
    lines; a `WriteLine` ends a line, a `Write` continues it. */
module PropertyEmission {
  import opened Wrappers
  import opened Text
  import opened Decorations
  import opened Owners
  import opened Properties

  // ---------------------------------------------------------------- changed handler

  /** The arguments the generated lambda passes to the handler, as written: the
      parameterless shape is handed the new value as well. */
  function HandlerArgumentsAsWritten(proto: HandlerPrototype, typeName: string): seq<string> {
    match proto
    case Unsupported => []
    case Empty => ["(" + typeName + ")e.NewValue"]
    case NewValueOnly => ["(" + typeName + ")e.NewValue"]
    case OldAndNewValue => ["(" + typeName + ")e.OldValue", "(" + typeName + ")e.NewValue"]
    case EventArgs => ["new((" + typeName + ")e.OldValue, (" + typeName + ")e.NewValue)"]
  }

  /** The arguments each handler shape takes: nothing for the parameterless one. */
  function HandlerArguments(proto: HandlerPrototype, typeName: string): seq<string> {
    if proto == Empty then [] else HandlerArgumentsAsWritten(proto, typeName)
  }

  /** An argument list, comma separated. */
  function JoinArguments(args: seq<string>): string {
    if args == [] then ""
    else if |args| == 1 then args[0]
    else JoinArguments(args[..|args| - 1]) + ", " + args[|args| - 1]
  }

  /** `(d, e) => ((Owner)d).Handler(args)`. */
  function HandlerLambda(r: PropertyRecord, args: seq<string>): string {
    "(d, e) => ((" + r.owner.name + ")d)." + r.PropertyChangedHandlerName() + "(" + JoinArguments(args) + ")"
  }

  /** `GenerateWpfChangedHandler` as written. */
  function ChangedHandlerAsWritten(r: PropertyRecord): string {
    if r.prototype == Unsupported then "null" else HandlerLambda(r, HandlerArgumentsAsWritten(r.prototype, r.typeName))
  }

  /** The changed-handler callback, with the parameterless shape called without arguments. */
  function ChangedHandler(r: PropertyRecord): string {
    if r.prototype == Unsupported then "null" else HandlerLambda(r, HandlerArguments(r.prototype, r.typeName))
  }

  /** The corrected lambda passes exactly as many arguments as the recognised
      handler declares; only an unsupported shape gives no callback (`null`). */
  lemma ChangedHandlerMatchesPrototype(r: PropertyRecord)
    ensures r.prototype != Unsupported ==>
              |HandlerArguments(r.prototype, r.typeName)| == ParameterCount(r.prototype)
              && ChangedHandler(r) == HandlerLambda(r, HandlerArguments(r.prototype, r.typeName))
    ensures ChangedHandler(r) == "null" <==> r.prototype == Unsupported
  {
    if r.prototype != Unsupported {
      assert ChangedHandler(r)[0] == '(';
    }
  }

  /** As written, a parameterless handler is passed one argument, and its lambda
      is the same text as for a new-value handler. */
  lemma EmptyHandlerGetsAnArgument(r: PropertyRecord)
    requires r.prototype == Empty
    ensures |HandlerArgumentsAsWritten(r.prototype, r.typeName)| == 1 != ParameterCount(Empty)
    ensures ChangedHandlerAsWritten(r) == ChangedHandlerAsWritten(r.(prototype := NewValueOnly))
  {
  }

  /** Both renderings agree on every shape but the parameterless one. */
  lemma ChangedHandlerAgreesAsWritten(r: PropertyRecord)
    ensures r.prototype != Empty <==> ChangedHandler(r) == ChangedHandlerAsWritten(r)
  {
    if r.prototype == Empty {
      var a := HandlerLambda(r, []);
      var b := HandlerLambda(r, HandlerArgumentsAsWritten(Empty, r.typeName));
      assert |a| < |b|;
    }
  }

  // ---------------------------------------------------------------- accessors

  /** The `Set...` method of an attached property, or the `set` accessor. */
  function SetterLines(r: PropertyRecord, objectType: string): seq<string> {
    if r.shouldBeAttached then
      [ "\tpublic static void Set" + r.name + "(" + objectType + " obj, " + r.typeName + " value)",
        "\t{ obj.SetValue(" + r.name + "Property, value); }" ]
    else
      [ "\t\t" + r.setterAccessModifiers + "set { SetValue(" + r.name + "Property, value); }" ]
  }

  /** The CLR accessors: `Get...`/`Set...` methods for an attached property, the
      partial property otherwise; `cast` is what precedes `GetValue`. */
  function AccessorLines(r: PropertyRecord, objectType: string, cast: string): seq<string> {
    var setter := if r.shouldBeReadOnly then [] else SetterLines(r, objectType);
    if r.shouldBeAttached then
      [ "\tpublic static " + r.typeName + " Get" + r.name + "(" + objectType + " obj)",
        "\t{ return " + cast + "obj.GetValue(" + r.name + "Property); }" ]
      + setter
    else
      [ "\t" + (if r.isStatic then "static " else "") + r.accessModifiers + r.methodModifiers
          + "partial " + r.typeName + " " + r.name + " {",
        "\t\tget { return " + cast + "GetValue(" + r.name + "Property); }" ]
      + setter
      + [ "\t}" ]
  }

  /** A read-only property gets the same accessors as a writable one minus the
      setter lines, which would come right after the two getter lines. */
  lemma ReadOnlyOmitsSetter(r: PropertyRecord, objectType: string, cast: string)
    ensures var ro := AccessorLines(r.(shouldBeReadOnly := true), objectType, cast);
            var rw := AccessorLines(r.(shouldBeReadOnly := false), objectType, cast);
            |ro| >= 2 && rw == ro[..2] + SetterLines(r, objectType) + ro[2..]
            && |SetterLines(r, objectType)| > 0
  {
  }

  // ---------------------------------------------------------------- Avalonia

  /** The styled-property registration: default value, inheritance and coerce
      callback are passed when present. */
  function AvaloniaRegistration(r: PropertyRecord): seq<string> {
    [ "\tpublic static readonly Avalonia.StyledProperty<" + r.typeName + "> " + r.name + "Property =",
      "\t\tAvalonia.AvaloniaProperty.Register" + (if r.shouldBeAttached then "Attached" else "")
        + "<" + r.owner.name + ", " + r.typeName + ">(nameof(" + r.name + ")"
        + (if r.HasDefaultValue() then ", defaultValue: " + r.DefaultValueName() else "")
        + (if r.inherits then ", inherits: true" else "")
        + (if r.HasCoerceCallback() then ", coerce: " + r.CoerceCallbackName() else "")
        + ");" ]
  }

  /** `GenerateDependencyPropertyForAvalonia`. */
  function EmitAvalonia(r: PropertyRecord): seq<string> {
    AvaloniaRegistration(r) + AccessorLines(r, "Avalonia.AvaloniaObject", "")
  }

  /** Avalonia output ignores the validate callback and the changed handler. */
  lemma AvaloniaIgnoresHandlerAndValidate(r: PropertyRecord)
    ensures EmitAvalonia(r) == EmitAvalonia(r.(validateCallbackLocation := None, propertyChangedHandlerLocation := None,
                                               prototype := Unsupported))
  {
    var r' := r.(validateCallbackLocation := None, propertyChangedHandlerLocation := None, prototype := Unsupported);
    assert AvaloniaRegistration(r') == AvaloniaRegistration(r);
    assert AccessorLines(r', "Avalonia.AvaloniaObject", "") == AccessorLines(r, "Avalonia.AvaloniaObject", "");
  }

  /** On Avalonia, read-only changes nothing in the registration (only the
      setter goes, as `ReadOnlyOmitsSetter` states). */
  lemma AvaloniaReadOnlyKeepsRegistration(r: PropertyRecord)
    ensures AvaloniaRegistration(r.(shouldBeReadOnly := true)) == AvaloniaRegistration(r.(shouldBeReadOnly := false))
  {
  }

  // ---------------------------------------------------------------- WPF, UWP, WinUI

  /** The default value: the convention-named member when there is one. */
  function DefaultValueText(r: PropertyRecord): string {
    if r.HasDefaultValue() then r.DefaultValueName() else "default(" + r.typeName + ")"
  }

  function CoerceArgument(r: PropertyRecord): string {
    if r.HasCoerceCallback() then ", coerceValueCallback: " + r.CoerceCallbackName() else ", coerceValueCallback: null"
  }

  /** `PropertyMetadata`: the coerce callback is passed only on WPF. */
  function PlainMetadata(r: PropertyRecord, handler: string): string {
    "PropertyMetadata(" + ("defaultValue: " + DefaultValueText(r) + ", propertyChangedCallback: " + handler
    + (if r.HasCoerceCallback() && r.owner.toolkit == Wpf then ", coerceValueCallback: " + r.CoerceCallbackName() else "")
    + ")")
  }

  function UIMetadata(r: PropertyRecord, handler: string): string {
    "UIPropertyMetadata(" + ("defaultValue: " + DefaultValueText(r) + ", propertyChangedCallback: " + handler
    + CoerceArgument(r) + ")")
  }

  function FrameworkMetadata(r: PropertyRecord, ns: string, handler: string): string {
    "FrameworkPropertyMetadata(" + ("defaultValue: " + DefaultValueText(r)
    + ", flags: " + ns + (if r.inherits then ".FrameworkPropertyMetadataOptions.Inherits" else ".FrameworkPropertyMetadataOptions.None")
    + ", propertyChangedCallback: " + handler + CoerceArgument(r) + ")")
  }

  /** The metadata object: framework-element metadata for a WPF framework element,
      UI-element metadata for another WPF UI element, plain metadata otherwise. */
  function Metadata(r: PropertyRecord, ns: string, handler: string): string {
    if r.owner.toolkit == Wpf && r.owner.isFrameworkElement then FrameworkMetadata(r, ns, handler)
    else if r.owner.toolkit == Wpf && r.owner.isUIElement then UIMetadata(r, handler)
    else PlainMetadata(r, handler)
  }

  /** The metadata class is chosen framework element > UI element > plain, and
      only on WPF. */
  lemma MetadataPrecedence(r: PropertyRecord, ns: string, handler: string)
    ensures StartsWith(Metadata(r, ns, handler), "FrameworkPropertyMetadata(") <==> r.owner.toolkit == Wpf && r.owner.isFrameworkElement
    ensures StartsWith(Metadata(r, ns, handler), "UIPropertyMetadata(") <==>
              r.owner.toolkit == Wpf && !r.owner.isFrameworkElement && r.owner.isUIElement
    ensures StartsWith(Metadata(r, ns, handler), "PropertyMetadata(") <==>
              r.owner.toolkit != Wpf || (!r.owner.isFrameworkElement && !r.owner.isUIElement)
  {
    var m := Metadata(r, ns, handler);
    var f, u, p := "FrameworkPropertyMetadata(", "UIPropertyMetadata(", "PropertyMetadata(";
    if r.owner.toolkit == Wpf && r.owner.isFrameworkElement {
      StartsWithConcat(f, m[|f|..]);
      assert m == f + m[|f|..];
      StartsWithDiffer(m, f, u);
      StartsWithDiffer(m, f, p);
    } else if r.owner.toolkit == Wpf && r.owner.isUIElement {
      StartsWithConcat(u, m[|u|..]);
      assert m == u + m[|u|..];
      StartsWithDiffer(m, u, f);
      StartsWithDiffer(m, u, p);
    } else {
      StartsWithConcat(p, m[|p|..]);
      assert m == p + m[|p|..];
      StartsWithDiffer(m, p, f);
      StartsWithDiffer(m, p, u);
    }
  }

  /** The registration, and on WPF for a read-only property the private key first
      and the public handle derived from it afterwards. The validate callback
      ends the argument line only on WPF. */
  function MsRegistration(r: PropertyRecord, ns: string, handler: string): seq<string> {
    var attached := if r.shouldBeAttached then "Attached" else "";
    var nameOfProp := if r.shouldBeAttached then "\"" + r.name + "\"" else "nameof(" + r.name + ")";
    var keyed := r.owner.toolkit == Wpf && r.shouldBeReadOnly;
    var first :=
      if keyed then KeyDeclaration(ns) + (r.name + "PropertyKey = " + ns + ".DependencyProperty.Register" + attached + "ReadOnly(")
      else HandleDeclaration(ns) + (r.name + "Property = " + ns + ".DependencyProperty.Register" + attached + "(");
    var args := "\t\t" + nameOfProp + ", typeof(" + r.NonNullTypeName() + "), typeof(" + r.owner.name + "), new "
                + ns + "." + Metadata(r, ns, handler);
    [first]
    + (if r.owner.toolkit == Wpf && r.HasValidateCallback() then [args + ", " + r.ValidateCallbackName(), ");"] else [args + ");"])
    + (if keyed then [HandleLine(r, ns)] else [])
  }

  function KeyDeclaration(ns: string): string { "\tprivate static readonly " + ns + ".DependencyPropertyKey " }
  function HandleDeclaration(ns: string): string { "\tpublic static readonly " + ns + ".DependencyProperty " }

  /** The public handle of a read-only WPF property. */
  function HandleLine(r: PropertyRecord, ns: string): string {
    HandleDeclaration(ns) + (r.name + "Property = " + r.name + "PropertyKey.DependencyProperty;")
  }

  /** Everything after the toolkit switch: registration, accessors, a blank line. */
  function MsLines(r: PropertyRecord, ns: string, handler: string): seq<string> {
    MsRegistration(r, ns, handler) + AccessorLines(r, ns + ".DependencyObject", "(" + r.typeName + ")") + [""]
  }

  /** The toolkit switch as written: UWP and WinUI refuse a coerce callback and
      inheritance; any toolkit but the three is refused. */
  function MsNamespaceAsWritten(r: PropertyRecord): Result<string> {
    match r.owner.toolkit
    case Uwp =>
      if r.HasCoerceCallback() then Err(InvalidOperation("UWP doesn't support coerce value callback"))
      else if r.inherits then Err(InvalidOperation("The 'Inherits' property is set for non-WPF MS framework"))
      else Ok("Windows.UI.Xaml")
    case WinUI =>
      if r.HasCoerceCallback() then Err(InvalidOperation("WinUI/Uno doesn't support coerce value callback"))
      else if r.inherits then Err(InvalidOperation("The 'Inherits' property is set for non-WPF MS framework"))
      else Ok("Microsoft.UI.Xaml")
    case Wpf => Ok("System.Windows")
    case _ => Err(InvalidOperation("Toolkit " + ToolkitName(r.owner.toolkit) + " is not supported by this generator method"))
  }

  /** The toolkit switch with a coerce callback ignored on UWP and WinUI, as the
      warning for it announces; inheritance there is still refused. */
  function MsNamespace(r: PropertyRecord): Result<string> {
    match r.owner.toolkit
    case Uwp =>
      if r.inherits then Err(InvalidOperation("The 'Inherits' property is set for non-WPF MS framework"))
      else Ok("Windows.UI.Xaml")
    case WinUI =>
      if r.inherits then Err(InvalidOperation("The 'Inherits' property is set for non-WPF MS framework"))
      else Ok("Microsoft.UI.Xaml")
    case Wpf => Ok("System.Windows")
    case _ => Err(InvalidOperation("Toolkit " + ToolkitName(r.owner.toolkit) + " is not supported by this generator method"))
  }

  /** `GenerateDependencyPropertyForMS` as written. */
  function EmitMsAsWritten(r: PropertyRecord): Result<seq<string>> {
    var ns := MsNamespaceAsWritten(r);
    if ns.Err? then Err(ns.error) else Ok(MsLines(r, ns.value, ChangedHandlerAsWritten(r)))
  }

  /** `GenerateDependencyPropertyForMS`, corrected in the coerce check and the
      parameterless handler call. */
  function EmitMs(r: PropertyRecord): Result<seq<string>> {
    var ns := MsNamespace(r);
    if ns.Err? then Err(ns.error) else Ok(MsLines(r, ns.value, ChangedHandler(r)))
  }

  /** As written, a WinUI or UWP property with a coerce callback cannot be emitted. */
  lemma MsCoerceThrowsAsWritten(r: PropertyRecord)
    requires r.owner.toolkit in {Uwp, WinUI} && r.HasCoerceCallback()
    ensures EmitMsAsWritten(r).Err? && EmitMsAsWritten(r).error.InvalidOperation?
  {
  }

  /** Outside WPF the coerce and validate callbacks leave no trace in the output. */
  lemma MsCallbacksOnlyOnWpf(r: PropertyRecord)
    requires r.owner.toolkit != Wpf
    ensures EmitMs(r) == EmitMs(r.(coerceCallbackLocation := None, validateCallbackLocation := None))
  {
    var r' := r.(coerceCallbackLocation := None, validateCallbackLocation := None);
    if MsNamespace(r).Ok? {
      var ns := MsNamespace(r).value;
      assert MsNamespace(r') == MsNamespace(r);
      assert ChangedHandler(r') == ChangedHandler(r);
      var h := ChangedHandler(r);
      assert DefaultValueText(r') == DefaultValueText(r);
      assert PlainMetadata(r', h) == PlainMetadata(r, h);
      assert Metadata(r', ns, h) == Metadata(r, ns, h);
      assert MsRegistration(r', ns, h) == MsRegistration(r, ns, h);
      assert AccessorLines(r', ns + ".DependencyObject", "(" + r.typeName + ")")
             == AccessorLines(r, ns + ".DependencyObject", "(" + r.typeName + ")");
    }
  }

  /** Where the as-written emitter succeeds, the corrected one produces the same
      lines unless the handler is the parameterless one. */
  lemma EmitMsAgreesAsWritten(r: PropertyRecord)
    requires EmitMsAsWritten(r).Ok? && r.prototype != Empty
    ensures EmitMs(r) == EmitMsAsWritten(r)
  {
    ChangedHandlerAgreesAsWritten(r);
  }

  /** The first line declares the private key for a read-only WPF property (the
      public handle then follows the registration), and the public handle
      otherwise. */
  lemma MsReadOnlyKey(r: PropertyRecord, ns: string, handler: string)
    ensures var lines := MsRegistration(r, ns, handler);
            (r.owner.toolkit == Wpf && r.shouldBeReadOnly ==>
               StartsWith(lines[0], KeyDeclaration(ns)) && lines[|lines| - 1] == HandleLine(r, ns))
            && (!(r.owner.toolkit == Wpf && r.shouldBeReadOnly) ==> StartsWith(lines[0], HandleDeclaration(ns)))
  {
    var lines := MsRegistration(r, ns, handler);
    if r.owner.toolkit == Wpf && r.shouldBeReadOnly {
      var rest := lines[0][|KeyDeclaration(ns)|..];
      assert lines[0] == KeyDeclaration(ns) + rest;
      StartsWithConcat(KeyDeclaration(ns), rest);
    } else {
      var rest := lines[0][|HandleDeclaration(ns)|..];
      assert lines[0] == HandleDeclaration(ns) + rest;
      StartsWithConcat(HandleDeclaration(ns), rest);
    }
  }

  /** Outside WPF, read-only changes nothing in the registration. */
  lemma MsReadOnlyKeepsRegistration(r: PropertyRecord, ns: string, handler: string)
    requires r.owner.toolkit != Wpf
    ensures MsRegistration(r.(shouldBeReadOnly := true), ns, handler) == MsRegistration(r.(shouldBeReadOnly := false), ns, handler)
  {
  }

  // ---------------------------------------------------------------- dispatch

  /** The toolkit's name, as `ToString` gives it. */
  function ToolkitName(t: Toolkit): string {
    match t
    case Unknown => "Unknown"
    case Avalonia => "Avalonia"
    case Uwp => "Uwp"
    case WinUI => "WinUI"
    case Wpf => "Wpf"
  }

  /** `GenerateDependencyProperty` as written. */
  function GenerateDependencyPropertyAsWritten(r: PropertyRecord): Result<seq<string>> {
    match r.owner.toolkit
    case Avalonia => Ok(EmitAvalonia(r))
    case Uwp => EmitMsAsWritten(r)
    case WinUI => EmitMsAsWritten(r)
    case Wpf => EmitMsAsWritten(r)
    case Unknown => Err(NotSupported)
  }

  /** `GenerateDependencyProperty`, with the corrected shared emitter. */
  function GenerateDependencyProperty(r: PropertyRecord): Result<seq<string>> {
    match r.owner.toolkit
    case Avalonia => Ok(EmitAvalonia(r))
    case Uwp => EmitMs(r)
    case WinUI => EmitMs(r)
    case Wpf => EmitMs(r)
    case Unknown => Err(NotSupported)
  }

  /** An unknown toolkit is refused, and so is inheritance on UWP and WinUI;
      nothing else fails. */
  lemma GenerateFailsOnlyOn(r: PropertyRecord)
    ensures GenerateDependencyProperty(r).Err? <==> r.owner.toolkit == Unknown || (r.owner.toolkit in {Uwp, WinUI} && r.inherits)
    ensures r.owner.toolkit == Unknown ==> GenerateDependencyProperty(r) == Err(NotSupported)
  {
  }

  /** Avalonia goes to its own emitter, the three Microsoft toolkits to the
      shared one under their own namespaces. */
  lemma GenerateDispatch(r: PropertyRecord)
    ensures r.owner.toolkit == Avalonia ==> GenerateDependencyProperty(r) == Ok(EmitAvalonia(r))
    ensures r.owner.toolkit == Wpf ==> GenerateDependencyProperty(r) == Ok(MsLines(r, "System.Windows", ChangedHandler(r)))
    ensures r.owner.toolkit == WinUI && !r.inherits ==>
              GenerateDependencyProperty(r) == Ok(MsLines(r, "Microsoft.UI.Xaml", ChangedHandler(r)))
    ensures r.owner.toolkit == Uwp && !r.inherits ==>
              GenerateDependencyProperty(r) == Ok(MsLines(r, "Windows.UI.Xaml", ChangedHandler(r)))
  {
  }
}
