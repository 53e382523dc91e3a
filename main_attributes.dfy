/** The attributes a user writes to ask for a dependency property (MainAttributes.cs):
    their constructor defaults, the supported-name test, and the record an attached
    property declared at class level is read into. */
module MainAttributes {
  import opened Wrappers
  import opened Text
  import opened Syntax
  import opened AttributeHelper
  import opened BindingModes

  /** `IsSupported`: a non-empty name that, completed with the suffix, names one of the
      two property attributes. */
  predicate IsSupported(name: Option<string>) {
    name.Some? && name.value != ""
    && NormaliseAttributeName(name.value) in {"DependencyPropertyAttribute", "AttachedPropertyAttribute"}
  }

  /** The two spellings of an attribute whose short name does not itself end in the suffix. */
  lemma TwoSpellings(name: string, short: string)
    requires !EndsWith(short, "Attribute")
    ensures NormaliseAttributeName(name) == short + "Attribute" <==> name == short || name == short + "Attribute"
  {
    var expected := short + "Attribute";
    EndsWithConcat(short, "Attribute");
    assert expected[..|expected| - 9] == short;
    NormaliseMatchesExactly(name, expected);
  }

  lemma DependencyPropertySpellings(name: string)
    ensures NormaliseAttributeName(name) == "DependencyPropertyAttribute" <==>
              name == "DependencyProperty" || name == "DependencyPropertyAttribute"
  {
    assert !EndsWith("DependencyProperty", "Attribute") by {
      assert "DependencyProperty"[9] != "Attribute"[0];
    }
    assert "DependencyProperty" + "Attribute" == "DependencyPropertyAttribute";
    TwoSpellings(name, "DependencyProperty");
  }

  lemma AttachedPropertySpellings(name: string)
    ensures NormaliseAttributeName(name) == "AttachedPropertyAttribute" <==>
              name == "AttachedProperty" || name == "AttachedPropertyAttribute"
  {
    assert !EndsWith("AttachedProperty", "Attribute") by {
      assert "AttachedProperty"[7] != "Attribute"[0];
    }
    assert "AttachedProperty" + "Attribute" == "AttachedPropertyAttribute";
    TwoSpellings(name, "AttachedProperty");
  }

  /** Exactly four spellings are supported: each attribute's name with or without the suffix. */
  lemma IsSupportedSpellings(name: string)
    ensures IsSupported(Some(name)) <==>
              name in {"DependencyProperty", "DependencyPropertyAttribute", "AttachedProperty", "AttachedPropertyAttribute"}
  {
    DependencyPropertySpellings(name);
    AttachedPropertySpellings(name);
  }

  /** `IsSupported(null)` and `IsSupported("")` are false. */
  lemma IsSupportedRefusesEmpty()
    ensures !IsSupported(None) && !IsSupported(Some(""))
  {
  }

  datatype DependencyPropertyAttribute = DependencyPropertyAttribute(inherits: bool, bindingMode: BindingMode)

  /** `DependencyPropertyAttribute(bool inherits = false, BindingMode bindingMode = OneWay)`. */
  function NewDependencyPropertyAttribute(inherits: bool := false, bindingMode: BindingMode := OneWay): DependencyPropertyAttribute {
    DependencyPropertyAttribute(inherits, bindingMode)
  }

  /** `DependencyPropertyAttribute(BindingMode bindingMode)`. */
  function DependencyPropertyAttributeWithMode(bindingMode: BindingMode): DependencyPropertyAttribute {
    DependencyPropertyAttribute(false, bindingMode)
  }

  datatype AttachedPropertyAttribute = AttachedPropertyAttribute(inherits: bool, bindingMode: BindingMode, readOnly: bool)

  /** `AttachedPropertyAttribute(bool inherits = false, bool readOnly = false, BindingMode bindingMode = OneWay)`. */
  function NewAttachedPropertyAttribute(inherits: bool := false, readOnly: bool := false, bindingMode: BindingMode := OneWay): AttachedPropertyAttribute {
    AttachedPropertyAttribute(inherits, bindingMode, readOnly)
  }

  /** `AttachedPropertyAttribute(BindingMode bindingMode)`: `ReadOnly` keeps its default. */
  function AttachedPropertyAttributeWithMode(bindingMode: BindingMode): AttachedPropertyAttribute {
    AttachedPropertyAttribute(false, bindingMode, false)
  }

  /** Omitted arguments mean: not inherited, one-way, writable; the mode-only overloads
      are the full ones with every other argument left out. */
  lemma ConstructorDefaults(m: BindingMode)
    ensures NewDependencyPropertyAttribute() == DependencyPropertyAttribute(false, OneWay)
    ensures DependencyPropertyAttributeWithMode(m) == NewDependencyPropertyAttribute(bindingMode := m)
    ensures NewAttachedPropertyAttribute() == AttachedPropertyAttribute(false, OneWay, false)
    ensures AttachedPropertyAttributeWithMode(m) == NewAttachedPropertyAttribute(bindingMode := m)
    ensures !AttachedPropertyAttributeWithMode(m).readOnly && !DependencyPropertyAttributeWithMode(m).inherits
  {
  }

  /** `WithAttachedPropertyAttribute<T>`: a class-level declaration of an attached property. */
  datatype WithAttachedPropertyAttribute = WithAttachedPropertyAttribute(
    name: string, defaultValue: Constant, inherits: bool, bindingMode: BindingMode, readOnly: bool)

  /** Its constructor refuses a null name and stores the rest as given. */
  function NewWithAttachedPropertyAttribute(name: Option<string>, defaultValue: Constant, inherits: bool := false,
                                            bindingMode: BindingMode := OneWay, readOnly: bool := false)
    : (r: Result<WithAttachedPropertyAttribute>)
    ensures r.Err? <==> name.None?
    ensures r.Err? ==> r.error == ArgumentNull("name")
    ensures r.Ok? ==> r.value.name == name.value && r.value.defaultValue == defaultValue
                      && r.value.inherits == inherits && r.value.bindingMode == bindingMode && r.value.readOnly == readOnly
  {
    if name.None? then Err(ArgumentNull("name"))
    else Ok(WithAttachedPropertyAttribute(name.value, defaultValue, inherits, bindingMode, readOnly))
  }

  /** The settable properties `parseAndSetArg` knows. */
  datatype InfoField = NameField | TypeField | DefaultValueField | InheritsField | ReadOnlyField

  /** `parseAndSetArg`'s name normalisation: the first character upper-cased, the rest kept. */
  function CapitaliseFirst(argName: string): (r: string)
    requires argName != ""
  {
    [ToUpperInvariant(argName[0])] + argName[1..]
  }

  /** The property an argument name sets; `None` for the empty name and any other name. */
  function ArgField(argName: string): Option<InfoField> {
    if argName == "" then None
    else
      var n := CapitaliseFirst(argName);
      if n == "Name" then Some(NameField)
      else if n == "Type" then Some(TypeField)
      else if n == "DefaultValue" then Some(DefaultValueField)
      else if n == "Inherits" then Some(InheritsField)
      else if n == "ReadOnly" then Some(ReadOnlyField)
      else None
  }

  /** Only the first letter's case is forgiven: `name` and `Name` set the name,
      `NAME` sets nothing. */
  lemma ArgNamesForgiveFirstLetterOnly()
    ensures ArgField("name") == Some(NameField) && ArgField("Name") == Some(NameField)
    ensures ArgField("readOnly") == Some(ReadOnlyField)
    ensures ArgField("NAME").None? && ArgField("").None?
  {
    assert CapitaliseFirst("name") == "Name";
    assert CapitaliseFirst("Name") == "Name";
    assert CapitaliseFirst("readOnly") == "ReadOnly";
    var n := CapitaliseFirst("NAME");
    assert n == "NAME";
    assert n[1] != "Name"[1] && n[1] != "Type"[1] && |n| != |"DefaultValue"| && |n| != |"Inherits"| && |n| != |"ReadOnly"|;
  }

  /** `ToString()` of a constant's value, with `?? ""` for null. */
  function ConstantText(c: Constant): string {
    match c
    case NoConstant => ""
    case NullConstant => ""
    case StringConstant(s) => s
    case BoolConstant(b) => if b then "True" else "False"
    case OtherConstant(text) => text
  }

  /** `(bool)(value ?? false)`: null reads as false, a non-bool value fails the cast. */
  function BoolCast(c: Constant): Result<bool> {
    match c
    case NoConstant => Ok(false)
    case NullConstant => Ok(false)
    case BoolConstant(b) => Ok(b)
    case _ => Err(InvalidCast)
  }

  /** The constant value itself: no constant and a null constant both read as null. */
  function ConstantValue(c: Constant): Constant {
    if c.NoConstant? then NullConstant else c
  }

  /** The record an attached-property declaration is parsed into. */
  class AttachedPropertyInfo {
    var name: Option<string>
    var inherits: bool
    var bindingMode: BindingMode
    var typeInfo: Option<string>
    var defaultValue: Constant
    var defaultValueLocation: Option<Location>
    var readOnly: bool

    /** `IsValid`: a non-empty name and a known type. */
    predicate IsValid()
      reads this
    {
      name.Some? && name.value != "" && typeInfo.Some?
    }

    /** The constructor: its argument loop has an empty body, so every property keeps
        its default value and the result is never valid. */
    constructor (args: Option<seq<AttributeArgument>>)
      ensures name.None? && !inherits && bindingMode == OneWay && typeInfo.None?
      ensures defaultValue == NullConstant && defaultValueLocation.None? && !readOnly
      ensures !IsValid()
    {
      name := None;
      inherits := false;
      bindingMode := OneWay;
      typeInfo := None;
      defaultValue := NullConstant;
      defaultValueLocation := None;
      readOnly := false;
    }

    /** `parseAndSetArg`: sets the property the argument names and answers whether it
        knew the name; a non-bool value for `Inherits` or `ReadOnly` throws. */
    method ParseAndSetArg(argName: string, expr: Expr) returns (r: Result<bool>)
      modifies this
      ensures (r.Ok? && !r.value) <==> ArgField(argName).None?
      ensures r.Err? <==> (ArgField(argName) == Some(InheritsField) || ArgField(argName) == Some(ReadOnlyField))
                          && BoolCast(expr.constant).Err?
      ensures r.Err? ==> r.error == InvalidCast
      ensures !(r.Ok? && r.value) ==> unchanged(this)
      ensures r.Ok? && r.value ==> match ArgField(argName).value {
        case NameField => name == Some(ConstantText(expr.constant))
          && inherits == old(inherits) && typeInfo == old(typeInfo) && defaultValue == old(defaultValue)
          && defaultValueLocation == old(defaultValueLocation) && readOnly == old(readOnly)
        case TypeField => typeInfo == Some(expr.typeText)
          && name == old(name) && inherits == old(inherits) && defaultValue == old(defaultValue)
          && defaultValueLocation == old(defaultValueLocation) && readOnly == old(readOnly)
        case DefaultValueField => defaultValue == ConstantValue(expr.constant) && defaultValueLocation == Some(expr.loc)
          && name == old(name) && inherits == old(inherits) && typeInfo == old(typeInfo) && readOnly == old(readOnly)
        case InheritsField => inherits == BoolCast(expr.constant).value
          && name == old(name) && typeInfo == old(typeInfo) && defaultValue == old(defaultValue)
          && defaultValueLocation == old(defaultValueLocation) && readOnly == old(readOnly)
        case ReadOnlyField => readOnly == BoolCast(expr.constant).value
          && name == old(name) && inherits == old(inherits) && typeInfo == old(typeInfo) && defaultValue == old(defaultValue)
          && defaultValueLocation == old(defaultValueLocation)
      }
      ensures bindingMode == old(bindingMode)
    {
      var field := ArgField(argName);
      if field.None? {
        return Ok(false);
      }
      match field.value {
        case NameField =>
          name := Some(ConstantText(expr.constant));
        case TypeField =>
          typeInfo := Some(expr.typeText);
        case DefaultValueField =>
          defaultValue := ConstantValue(expr.constant);
          defaultValueLocation := Some(expr.loc);
        case InheritsField =>
          var b := BoolCast(expr.constant);
          if b.Err? {
            return Err(b.error);
          }
          inherits := b.value;
        case ReadOnlyField =>
          var b := BoolCast(expr.constant);
          if b.Err? {
            return Err(b.error);
          }
          readOnly := b.value;
      }
      r := Ok(true);
    }
  }

  /** Setting a known name and a type through `parseAndSetArg` is what makes a record valid. */
  method ParsedNameAndTypeMakeValid(info: AttachedPropertyInfo, nameExpr: Expr, typeExpr: Expr)
    returns (valid: bool)
    requires ConstantText(nameExpr.constant) != ""
    modifies info
    ensures valid && info.IsValid()
  {
    assert CapitaliseFirst("name") == "Name";
    assert CapitaliseFirst("type") == "Type";
    assert ArgField("type") == Some(TypeField) by {
      assert "Type" != "Name" by { assert "Type"[0] != "Name"[0]; }
    }
    assert ArgField("name") == Some(NameField);
    var r1 := info.ParseAndSetArg("name", nameExpr);
    assert r1.Ok? && r1.value;
    assert info.name == Some(ConstantText(nameExpr.constant));
    var r2 := info.ParseAndSetArg("type", typeExpr);
    assert r2.Ok? && r2.value;
    valid := info.IsValid();
  }
}
