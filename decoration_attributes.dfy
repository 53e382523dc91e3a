/** The four decoration attributes a user puts on a class, module or assembly to
    change a naming convention (DecorationAttributes.cs), and their defaults. */
module DecorationAttributes {
  import opened Wrappers
  import opened Text
  import opened Decorations

  /** Which companion member a decoration names. */
  datatype Convention =
    | DefaultValueName
    | CoerceCallbackName
    | ValidateCallbackName
    | PropertyChangedHandlerName

  /** The attribute class's name, as `typeof(T).Name` gives it. */
  function AttributeTypeName(c: Convention): string {
    var stem := match c
      case DefaultValueName => "DefaultValueNameDecoration"
      case CoerceCallbackName => "CoerceCallbackNameDecoration"
      case ValidateCallbackName => "ValidateCallbackNameDecoration"
      case PropertyChangedHandlerName => "PropertyChangedHandlerNameDecoration";
    stem + "Attribute"
  }

  function DefaultPrefix(c: Convention): string {
    match c
    case DefaultValueName => "defaultFor"
    case CoerceCallbackName => "Coerce"
    case ValidateCallbackName => "Validate"
    case PropertyChangedHandlerName => "On"
  }

  function DefaultSuffix(c: Convention): string {
    match c
    case PropertyChangedHandlerName => "Changed"
    case _ => ""
  }

  /** An attribute instance: its convention and the decoration it built. */
  datatype DecorationAttribute = DecorationAttribute(convention: Convention, decoration: Decoration)
  {
    function Prefix(): string { decoration.prefix }
    function Suffix(): string { decoration.suffix }
  }

  /** The two-argument constructor: the base class builds the decoration, so its
      null and empty-pair checks apply. */
  function Construct(c: Convention, prefix: Option<string>, suffix: Option<string>): (r: Result<DecorationAttribute>)
    ensures r.Ok? <==> NewDecoration(prefix, suffix).Ok?
    ensures r.Ok? ==> r.value.convention == c && r.value.Prefix() == prefix.value && r.value.Suffix() == suffix.value
    ensures r.Err? ==> r.error == NewDecoration(prefix, suffix).error
  {
    var d := NewDecoration(prefix, suffix);
    if d.Err? then Err(d.error) else Ok(DecorationAttribute(c, d.value))
  }

  /** The one-argument constructor keeps the default suffix. */
  function ConstructWithPrefix(c: Convention, prefix: Option<string>): Result<DecorationAttribute> {
    Construct(c, prefix, Some(DefaultSuffix(c)))
  }

  /** The parameterless constructor, used when no attribute is found. */
  function ConstructDefault(c: Convention): Result<DecorationAttribute> {
    Construct(c, Some(DefaultPrefix(c)), Some(DefaultSuffix(c)))
  }

  /** The static `Default` decoration of each attribute class. */
  function Default(c: Convention): Decoration {
    Affixes(DefaultPrefix(c), DefaultSuffix(c))
  }

  /** The parameterless constructor never throws and yields the static default. */
  lemma DefaultEqualsParameterless(c: Convention)
    ensures ConstructDefault(c) == Ok(DecorationAttribute(c, Default(c)))
  {
  }

  /** A prefix given alone keeps the default suffix; an empty one is refused for
      every convention whose default suffix is empty, accepted for the changed handler. */
  lemma PrefixOnlyKeepsDefaultSuffix(c: Convention, prefix: string)
    ensures ConstructWithPrefix(c, Some(prefix)).Ok? <==> prefix != "" || c == PropertyChangedHandlerName
    ensures ConstructWithPrefix(c, Some(prefix)).Ok? ==>
              ConstructWithPrefix(c, Some(prefix)).value.Suffix() == DefaultSuffix(c)
  {
  }

  /** Every attribute class name carries the `Attribute` suffix. */
  lemma AttributeTypeNameSuffix(c: Convention)
    ensures EndsWith(AttributeTypeName(c), "Attribute")
  {
    var n := AttributeTypeName(c);
    EndsWithConcat(n[..|n| - 9], "Attribute");
    assert n[..|n| - 9] + "Attribute" == n;
  }

  /** The length of each attribute class name; the four differ. */
  function NameLength(c: Convention): nat {
    match c
    case DefaultValueName => 35
    case CoerceCallbackName => 37
    case ValidateCallbackName => 39
    case PropertyChangedHandlerName => 45
  }

  lemma AttributeTypeNameLength(c: Convention)
    ensures |AttributeTypeName(c)| == NameLength(c)
  {
  }

  /** Every attribute class name carries the `Attribute` suffix, and the four differ. */
  lemma AttributeTypeNamesWellFormed(c: Convention, c': Convention)
    ensures EndsWith(AttributeTypeName(c), "Attribute")
    ensures c != c' ==> AttributeTypeName(c) != AttributeTypeName(c')
  {
    AttributeTypeNameSuffix(c);
    AttributeTypeNameLength(c);
    AttributeTypeNameLength(c');
  }
}
