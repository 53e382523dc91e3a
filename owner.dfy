/** What a property record reads from the class that owns it (the fields of
    ClassData.cs), and the toolkits a class can target (Toolkit.cs). */
module Owners {
  import opened Syntax
  import opened Decorations
  import opened DecorationAttributes

  /** The toolkit the generated code is written for. */
  datatype Toolkit = Unknown | Avalonia | Uwp | WinUI | Wpf

  /** An owning class: identity, toolkit and shape flags, and the four naming
      conventions in force for it. */
  datatype OwnerInfo = OwnerInfo(
    namespace: string,
    name: string,
    fullName: string,
    toolkit: Toolkit,
    isUIElement: bool,
    isFrameworkElement: bool,
    isPartial: bool,
    isClass: bool,
    isInner: bool,
    defaultValueName: Decoration,
    coerceCallbackName: Decoration,
    validateCallbackName: Decoration,
    propertyChangedHandlerName: Decoration,
    usingsText: string,
    identifierLoc: Location)
  {
    /** The decoration in force for a convention. */
    function DecorationFor(c: Convention): Decoration {
      match c
      case DefaultValueName => defaultValueName
      case CoerceCallbackName => coerceCallbackName
      case ValidateCallbackName => validateCallbackName
      case PropertyChangedHandlerName => propertyChangedHandlerName
    }
  }
}
