/** One dependency property to generate (PropertyData.cs): the syntactic
    classifiers that derive its record from a declaration, the record's updates
    while its class is analysed, and the code emitted for each toolkit. */
module Properties {
  import opened Wrappers
  import opened Text
  import opened Syntax
  import opened AttributeHelper
  import opened Decorations
  import opened DecorationAttributes
  import opened Owners

  /** How the property-changed handler is to be called. */
  datatype HandlerPrototype = Unsupported | Empty | NewValueOnly | OldAndNewValue | EventArgs

  // ---------------------------------------------------------------- classifiers

  /** `IsAutoProperty`: no expression body, and no accessor with a body. */
  predicate IsAutoProperty(p: PropertyDecl) {
    !p.hasExpressionBody
    && (p.accessors.None? || forall a :: a in p.accessors.value ==> !a.hasBody && !a.hasExpressionBody)
  }

  /** A `get` accessor restricted below the property's own access. */
  predicate RestrictedGetter(a: Accessor) {
    a.kind != GetAccessor || Protected in a.modifiers || Private in a.modifiers || Internal in a.modifiers
  }

  /** `IsUnreadableProperty`: private, or with no access keyword at all; otherwise,
      unless it is an expression-bodied `=> e` property, every getter is restricted. */
  predicate IsUnreadableProperty(p: PropertyDecl) {
    if Private in p.modifiers then true
    else if Public !in p.modifiers && Protected !in p.modifiers && Internal !in p.modifiers then true
    else if p.accessors.None? && p.hasExpressionBody then false
    else p.accessors.None? || forall a :: a in p.accessors.value ==> RestrictedGetter(a)
  }

  /** A public property is readable exactly when it has a getter nobody restricted
      (or is an `=> e` property). */
  lemma PublicReadableIffOpenGetter(p: PropertyDecl)
    requires Public in p.modifiers && Private !in p.modifiers
    ensures !IsUnreadableProperty(p) <==>
              (p.accessors.None? && p.hasExpressionBody)
              || (p.accessors.Some? && exists a :: a in p.accessors.value && a.kind == GetAccessor
                                                   && a.modifiers !! {Protected, Private, Internal})
  {
  }

  /** `GetAccessModifiers`: the most significant access keyword, as written text. */
  function GetAccessModifiers(m: Modifiers): (r: string)
    ensures r in {"public ", "private ", "protected internal ", "protected ", "internal ", ""}
    ensures r == "" <==> m !! {Public, Private, Protected, Internal}
    ensures r != "" ==> r[|r| - 1] == ' '
  {
    if Public in m then "public "
    else if Private in m then "private "
    else if Protected in m then (if Internal in m then "protected internal " else "protected ")
    else if Internal in m then "internal "
    else ""
  }

  /** The access keyword kept is the most significant one present: `public` over
      `private`, over `protected` (joined by `internal` when both are written), over
      `internal`. */
  lemma AccessPrecedence(m: Modifiers)
    ensures Public in m ==> GetAccessModifiers(m) == "public "
    ensures Public !in m && Private in m ==> GetAccessModifiers(m) == "private "
    ensures m !! {Public, Private} && Protected in m ==>
              GetAccessModifiers(m) == (if Internal in m then "protected internal " else "protected ")
    ensures m !! {Public, Private, Protected} && Internal in m ==> GetAccessModifiers(m) == "internal "
  {
  }

  /** The modifiers a generated property repeats from its declaration, in this order. */
  const MethodKeywords: seq<Keyword> := [New, Override, Sealed, Virtual]

  function KeywordText(k: Keyword): string {
    match k
    case New => "new"
    case Override => "override"
    case Sealed => "sealed"
    case Virtual => "virtual"
    case _ => ""
  }

  /** Each keyword of `ks` present in `m`, followed by a space. */
  function KeywordsText(ks: seq<Keyword>, m: Modifiers): string {
    if ks == [] then ""
    else KeywordsText(ks[..|ks| - 1], m) + if ks[|ks| - 1] in m then KeywordText(ks[|ks| - 1]) + " " else ""
  }

  /** Written keywords are either absent or end in a space. */
  lemma {:induction false} KeywordsTextShape(ks: seq<Keyword>, m: Modifiers)
    ensures KeywordsText(ks, m) == "" <==> forall k :: k in ks ==> k !in m
    ensures KeywordsText(ks, m) != "" ==> KeywordsText(ks, m)[|KeywordsText(ks, m)| - 1] == ' '
    decreases |ks|
  {
    if ks != [] {
      var init := ks[..|ks| - 1];
      KeywordsTextShape(init, m);
      assert ks == init + [ks[|ks| - 1]];
    }
  }

  /** `GetMethodModifiers`: appends `new `, `override `, `sealed `, `virtual ` for each
      keyword present, in that order. */
  method GetMethodModifiers(m: Modifiers) returns (r: string)
    ensures r == KeywordsText(MethodKeywords, m)
    ensures r == "" <==> m !! {New, Override, Sealed, Virtual}
  {
    var sb := "";
    assert MethodKeywords[..1][..0] == [];
    if New in m {
      sb := sb + "new ";
    }
    assert sb == KeywordsText(MethodKeywords[..1], m);
    assert MethodKeywords[..2][..1] == MethodKeywords[..1];
    if Override in m {
      sb := sb + "override ";
    }
    assert sb == KeywordsText(MethodKeywords[..2], m);
    assert MethodKeywords[..3][..2] == MethodKeywords[..2];
    if Sealed in m {
      sb := sb + "sealed ";
    }
    assert sb == KeywordsText(MethodKeywords[..3], m);
    assert MethodKeywords[..3] == MethodKeywords[..|MethodKeywords| - 1];
    if Virtual in m {
      sb := sb + "virtual ";
    }
    r := sb;
    KeywordsTextShape(MethodKeywords, m);
  }

  /** The two property attributes, by short and by full type name. */
  datatype MarkerKind = DependencyPropertyMarker | AttachedPropertyMarker
  {
    function ShortName(): string {
      match this
      case DependencyPropertyMarker => "DependencyPropertyAttribute"
      case AttachedPropertyMarker => "AttachedPropertyAttribute"
    }
    function FullName(): string { "DepRos." + ShortName() }
  }

  /** `AttributeNameMatchesType`: a qualified name is compared with the full type
      name, a simple one with the short name, both after the suffix is completed. */
  predicate AttributeNameMatchesType(name: AttributeName, kind: MarkerKind) {
    var n := NormaliseAttributeName(name.text);
    if name.qualified then n == kind.FullName() else n == kind.ShortName()
  }

  /** The usages of the attribute, in declaration order. */
  function Markers(attrs: seq<Attribute>, kind: MarkerKind): seq<Attribute> {
    if attrs == [] then []
    else (if AttributeNameMatchesType(attrs[0].name, kind) then [attrs[0]] else []) + Markers(attrs[1..], kind)
  }

  /** Every matching usage is one of the usages. */
  lemma {:induction false} MarkersMember(s: seq<Attribute>, x: Attribute, kind: MarkerKind)
    requires x in s && AttributeNameMatchesType(x.name, kind)
    ensures x in Markers(s, kind)
    decreases |s|
  {
    if s[0] != x {
      MarkersMember(s[1..], x, kind);
    }
  }

  /** A usage whose first argument is the constant `true`. */
  predicate FirstArgumentIsTrue(a: Attribute) {
    a.args.Some? && |a.args.value| > 0 && a.args.value[0].expr.constant == BoolConstant(true)
  }

  /** What the shared constructor learns from the attribute usages. */
  datatype MarkerScan = MarkerScan(hasAttribute: bool, hasMultipleAttributes: bool, inherits: bool)

  const NothingSeen := MarkerScan(false, false, false)

  /** The scan continued from `st` over `attrs`, one usage at a time. */
  function ScanFrom(st: MarkerScan, attrs: seq<Attribute>, kind: MarkerKind): Result<MarkerScan>
    decreases |attrs|
  {
    if attrs == [] then Ok(st)
    else if !AttributeNameMatchesType(attrs[0].name, kind) then ScanFrom(st, attrs[1..], kind)
    else if attrs[0].args == Some([]) then Err(ArgumentOutOfRange)
    else
      var st' := MarkerScan(true, st.hasMultipleAttributes || st.hasAttribute, st.inherits || FirstArgumentIsTrue(attrs[0]));
      ScanFrom(st', attrs[1..], kind)
  }

  /** The scan fails exactly on a usage with an empty argument list; otherwise it
      reports whether the attribute occurs, occurs more than once, and is
      inherited by at least one usage. */
  lemma {:induction false} ScanFromMeaning(st: MarkerScan, attrs: seq<Attribute>, kind: MarkerKind)
    ensures ScanFrom(st, attrs, kind).Err? <==> exists a :: a in Markers(attrs, kind) && a.args == Some([])
    ensures ScanFrom(st, attrs, kind).Err? ==> ScanFrom(st, attrs, kind).error == ArgumentOutOfRange
    ensures ScanFrom(st, attrs, kind).Ok? ==>
              var ms := Markers(attrs, kind);
              ScanFrom(st, attrs, kind).value
              == MarkerScan(st.hasAttribute || |ms| > 0,
                            st.hasMultipleAttributes || (st.hasAttribute && |ms| > 0) || |ms| > 1,
                            st.inherits || exists a :: a in ms && FirstArgumentIsTrue(a))
    decreases |attrs|
  {
    if attrs != [] {
      var x := attrs[0];
      var rest := attrs[1..];
      if !AttributeNameMatchesType(x.name, kind) {
        ScanFromMeaning(st, rest, kind);
      } else if x.args != Some([]) {
        var st' := MarkerScan(true, st.hasMultipleAttributes || st.hasAttribute, st.inherits || FirstArgumentIsTrue(x));
        ScanFromMeaning(st', rest, kind);
        assert Markers(attrs, kind) == [x] + Markers(rest, kind);
      } else {
        assert x in Markers(attrs, kind);
      }
    }
  }

  /** Scanning two stretches in turn is scanning their concatenation; a failure
      in the first ends the scan. */
  lemma {:induction false} ScanFromConcat(st: MarkerScan, a: seq<Attribute>, b: seq<Attribute>, kind: MarkerKind)
    ensures ScanFrom(st, a + b, kind)
         == var first := ScanFrom(st, a, kind);
            if first.Err? then first else ScanFrom(first.value, b, kind)
    decreases |a|
  {
    if a == [] {
      assert a + b == b;
    } else {
      assert (a + b)[0] == a[0];
      assert (a + b)[1..] == a[1..] + b;
      var st' := MarkerScan(true, st.hasMultipleAttributes || st.hasAttribute, st.inherits || FirstArgumentIsTrue(a[0]));
      ScanFromConcat(st, a[1..], b, kind);
      ScanFromConcat(st', a[1..], b, kind);
    }
  }

  /** The inner loop of the scan, over one attribute list, carrying the three
      flags set so far. */
  method ScanList(attrs: seq<Attribute>, kind: MarkerKind, st: MarkerScan) returns (r: Result<MarkerScan>)
    ensures r == ScanFrom(st, attrs, kind)
  {
    var hasAttribute, hasMultipleAttributes, inherits := st.hasAttribute, st.hasMultipleAttributes, st.inherits;
    var j := 0;
    assert attrs[0..] == attrs;
    while j < |attrs|
      invariant 0 <= j <= |attrs|
      invariant ScanFrom(st, attrs, kind) == ScanFrom(MarkerScan(hasAttribute, hasMultipleAttributes, inherits), attrs[j..], kind)
    {
      var attr := attrs[j];
      assert attrs[j..][0] == attr;
      assert attrs[j..][1..] == attrs[j + 1..];
      if AttributeNameMatchesType(attr.name, kind) {
        if attr.args == Some([]) {
          return Err(ArgumentOutOfRange);
        }
        if hasAttribute {
          hasMultipleAttributes := true;
        }
        hasAttribute := true;
        if attr.args.Some? {
          assert |attr.args.value| > 0;
          if attr.args.value[0].expr.constant == BoolConstant(true) {
            inherits := true;
          }
        }
      }
      j := j + 1;
    }
    r := Ok(MarkerScan(hasAttribute, hasMultipleAttributes, inherits));
  }

  /** The shared constructor's scan of the attribute lists: a usage with an empty
      argument list makes `Arguments[0]` throw; otherwise the attribute is present,
      repeated, and inherited as the usages say. */
  method ScanMarkerAttributes(lists: seq<AttributeList>, kind: MarkerKind) returns (r: Result<MarkerScan>)
    ensures r == ScanFrom(NothingSeen, Flatten(lists), kind)
    ensures r.Err? <==> exists a :: a in Markers(Flatten(lists), kind) && a.args == Some([])
    ensures r.Err? ==> r.error == ArgumentOutOfRange
    ensures r.Ok? ==> r.value == MarkerScan(|Markers(Flatten(lists), kind)| > 0, |Markers(Flatten(lists), kind)| > 1,
                                            exists a :: a in Markers(Flatten(lists), kind) && FirstArgumentIsTrue(a))
  {
    ScanFromMeaning(NothingSeen, Flatten(lists), kind);
    var st := NothingSeen;
    var i := 0;
    assert lists[0..] == lists;
    while i < |lists|
      invariant 0 <= i <= |lists|
      invariant ScanFrom(NothingSeen, Flatten(lists), kind) == ScanFrom(st, Flatten(lists[i..]), kind)
    {
      FlattenCons(lists[i..]);
      assert lists[i..][1..] == lists[i + 1..];
      ScanFromConcat(st, lists[i], Flatten(lists[i + 1..]), kind);
      var scanned := ScanList(lists[i], kind, st);
      if scanned.Err? {
        return scanned;
      }
      st := scanned.value;
      i := i + 1;
    }
    assert lists[i..] == [];
    r := Ok(st);
  }

  // ---------------------------------------------------------------- the record

  /** Everything a property record holds at one moment: what the constructors
      derive from the declaration and what the `Mark*` updates add later. */
  datatype PropertyRecord = PropertyRecord(
    sourceLocation: Location,
    owner: OwnerInfo,
    name: string,
    typeName: string,
    isAuto: bool,
    isPartial: bool,
    isStatic: bool,
    isUnreadable: bool,
    hasAttribute: bool,
    hasMultipleAttributes: bool,
    isDefaultValueWriteable: bool,
    defaultValueLocation: Option<Location>,
    coerceCallbackLocation: Option<Location>,
    validateCallbackLocation: Option<Location>,
    propertyChangedHandlerLocation: Option<Location>,
    prototype: HandlerPrototype,
    shouldBeAttached: bool,
    shouldBeReadOnly: bool,
    inherits: bool,
    accessModifiers: string,
    methodModifiers: string,
    setterAccessModifiers: string)
  {
    predicate HasDefaultValue() { defaultValueLocation.Some? }
    predicate HasCoerceCallback() { coerceCallbackLocation.Some? }
    predicate HasValidateCallback() { validateCallbackLocation.Some? }
    predicate HasPropertyChangedHandler() { propertyChangedHandlerLocation.Some? }

    /** The member names the conventions in force give this property. */
    function DefaultValueName(): string { ApplyTo(owner.defaultValueName, name) }
    function CoerceCallbackName(): string { ApplyTo(owner.coerceCallbackName, name) }
    function ValidateCallbackName(): string { ApplyTo(owner.validateCallbackName, name) }
    function PropertyChangedHandlerName(): string { ApplyTo(owner.propertyChangedHandlerName, name) }

    /** The type without its nullable marks, for `typeof(...)`. */
    function NonNullTypeName(): string { TrimEnd(typeName, '?') }
  }

  /** `string.TrimEnd(c)`: drops every trailing `c`. */
  function TrimEnd(s: string, c: char): string {
    if s != [] && s[|s| - 1] == c then TrimEnd(s[..|s| - 1], c) else s
  }

  /** `TrimEnd` removes a run of `c` and nothing else: the rest is a prefix of the
      input that does not end in `c`, and only `c` was cut off. */
  lemma {:induction false} TrimEndSpec(s: string, c: char)
    ensures var t := TrimEnd(s, c);
            |t| <= |s| && s[..|t|] == t && (t == [] || t[|t| - 1] != c)
            && forall k :: |t| <= k < |s| ==> s[k] == c
  {
    if s != [] && s[|s| - 1] == c {
      TrimEndSpec(s[..|s| - 1], c);
    }
  }

  /** The first `set` accessor, as `FirstOrDefault` finds it. */
  function FirstSetter(accessors: seq<Accessor>): Option<Accessor> {
    if accessors == [] then None
    else if accessors[0].kind == SetAccessor then Some(accessors[0])
    else FirstSetter(accessors[1..])
  }

  /** `FirstSetter` finds a `set` accessor exactly when there is one, and no
      earlier accessor is a `set`. */
  lemma {:induction false} FirstSetterSpec(accessors: seq<Accessor>)
    ensures FirstSetter(accessors).None? <==> forall a :: a in accessors ==> a.kind != SetAccessor
    ensures FirstSetter(accessors).Some? ==>
              exists k :: 0 <= k < |accessors| && accessors[k] == FirstSetter(accessors).value
                          && accessors[k].kind == SetAccessor
                          && forall k' :: 0 <= k' < k ==> accessors[k'].kind != SetAccessor
  {
    if accessors != [] && accessors[0].kind != SetAccessor {
      FirstSetterSpec(accessors[1..]);
      if FirstSetter(accessors).Some? {
        var k :| 0 <= k < |accessors[1..]| && accessors[1..][k] == FirstSetter(accessors).value
                 && accessors[1..][k].kind == SetAccessor
                 && forall k' :: 0 <= k' < k ==> accessors[1..][k'].kind != SetAccessor;
        assert accessors[k + 1] == FirstSetter(accessors).value;
      }
      assert forall a :: a in accessors ==> a == accessors[0] || a in accessors[1..];
    } else if accessors != [] {
      assert accessors[0] == FirstSetter(accessors).value;
    }
  }

  /** The property constructor: an ordinary (non-attached) property of the
      declared name and type, read-only when it has no `set` accessor, with the
      attribute usages scanned as the shared constructor does. */
  function PropertyRecordOf(owner: OwnerInfo, p: PropertyDecl): Result<PropertyRecord> {
    var scan := ScanFrom(NothingSeen, Flatten(p.attributeLists), DependencyPropertyMarker);
    if scan.Err? then Err(scan.error)
    else
      var setter := if p.accessors.Some? then FirstSetter(p.accessors.value) else None;
      Ok(PropertyRecord(
        sourceLocation := p.loc, owner := owner, name := p.name, typeName := p.typeText,
        isAuto := IsAutoProperty(p), isPartial := Partial in p.modifiers, isStatic := Static in p.modifiers,
        isUnreadable := IsUnreadableProperty(p),
        hasAttribute := scan.value.hasAttribute, hasMultipleAttributes := scan.value.hasMultipleAttributes,
        isDefaultValueWriteable := false, defaultValueLocation := None, coerceCallbackLocation := None,
        validateCallbackLocation := None, propertyChangedHandlerLocation := None, prototype := Unsupported,
        shouldBeAttached := false, shouldBeReadOnly := setter.None?, inherits := scan.value.inherits,
        accessModifiers := GetAccessModifiers(p.modifiers),
        methodModifiers := KeywordsText(MethodKeywords, p.modifiers),
        setterAccessModifiers := if setter.Some? then GetAccessModifiers(setter.value.modifiers) else ""))
  }

  /** The field constructor: an attached property named by stripping the
      default-value convention from the declarator (empty when it does not
      strip), writable, with the field's attribute usages scanned. */
  function FieldRecordOf(owner: OwnerInfo, f: FieldDecl, d: Declarator): Result<PropertyRecord> {
    var scan := ScanFrom(NothingSeen, Flatten(f.attributeLists), AttachedPropertyMarker);
    if scan.Err? then Err(scan.error)
    else
      var stripped := Strip(owner.defaultValueName, d.name);
      Ok(PropertyRecord(
        sourceLocation := d.loc, owner := owner, name := if stripped.Some? then stripped.value else "",
        typeName := f.typeText,
        isAuto := false, isPartial := Partial in f.modifiers, isStatic := Static in f.modifiers,
        isUnreadable := false,
        hasAttribute := scan.value.hasAttribute, hasMultipleAttributes := scan.value.hasMultipleAttributes,
        isDefaultValueWriteable := false, defaultValueLocation := None, coerceCallbackLocation := None,
        validateCallbackLocation := None, propertyChangedHandlerLocation := None, prototype := Unsupported,
        shouldBeAttached := true, shouldBeReadOnly := false, inherits := scan.value.inherits,
        accessModifiers := GetAccessModifiers(f.modifiers), methodModifiers := "", setterAccessModifiers := ""))
  }

  /** A fresh property record has no fragments attached yet, its modifier texts
      are empty or end in a space, it is never attached, and it is read-only
      exactly when no accessor is a `set`. */
  lemma PropertyRecordShape(owner: OwnerInfo, p: PropertyDecl)
    ensures PropertyRecordOf(owner, p).Ok? ==>
              var r := PropertyRecordOf(owner, p).value;
              r.name == p.name && !r.shouldBeAttached
              && (r.shouldBeReadOnly <==> p.accessors.None? || forall a :: a in p.accessors.value ==> a.kind != SetAccessor)
              && NoFragments(r) && SpacedModifiers(r)
              && (r.hasMultipleAttributes ==> r.hasAttribute)
  {
    ScanFromMeaning(NothingSeen, Flatten(p.attributeLists), DependencyPropertyMarker);
    if p.accessors.Some? {
      FirstSetterSpec(p.accessors.value);
    }
    KeywordsTextShape(MethodKeywords, p.modifiers);
  }

  /** A fresh field record is attached, writable, has no fragments attached yet,
      its modifier texts are empty or end in a space, and it is named by the
      stripped declarator. */
  lemma FieldRecordShape(owner: OwnerInfo, f: FieldDecl, d: Declarator)
    ensures FieldRecordOf(owner, f, d).Ok? ==>
              var r := FieldRecordOf(owner, f, d).value;
              r.shouldBeAttached && !r.shouldBeReadOnly && NoFragments(r) && SpacedModifiers(r)
              && (Strip(owner.defaultValueName, d.name).Some? ==> ApplyTo(owner.defaultValueName, r.name) == d.name)
              && (r.hasMultipleAttributes ==> r.hasAttribute)
  {
    ScanFromMeaning(NothingSeen, Flatten(f.attributeLists), AttachedPropertyMarker);
  }

  predicate NoFragments(r: PropertyRecord) {
    r.defaultValueLocation.None? && r.coerceCallbackLocation.None? && r.validateCallbackLocation.None?
    && r.propertyChangedHandlerLocation.None? && r.prototype == Unsupported && !r.isDefaultValueWriteable
  }

  /** Modifier texts are either empty or end in a space. */
  predicate SpacedModifiers(r: PropertyRecord) {
    (r.accessModifiers == "" || r.accessModifiers[|r.accessModifiers| - 1] == ' ')
    && (r.methodModifiers == "" || r.methodModifiers[|r.methodModifiers| - 1] == ' ')
    && (r.setterAccessModifiers == "" || r.setterAccessModifiers[|r.setterAccessModifiers| - 1] == ' ')
  }

  // ---------------------------------------------------------------- changed handler

  /** The shape of a changed-handler method, by its parameter types: none, the
      property's type, two of the property's type, or any other single type
      (taken to be an event-arguments class); `None` for anything else. */
  function ClassifyHandler(paramTypes: seq<string>, typeName: string): Option<HandlerPrototype> {
    if |paramTypes| == 0 then Some(Empty)
    else if |paramTypes| == 1 then Some(if paramTypes[0] == typeName then NewValueOnly else EventArgs)
    else if |paramTypes| == 2 then
      if paramTypes[0] != typeName || paramTypes[1] != typeName then None else Some(OldAndNewValue)
    else None
  }

  /** How many parameters a handler of each shape declares. */
  function ParameterCount(proto: HandlerPrototype): nat {
    match proto
    case Unsupported => 0
    case Empty => 0
    case NewValueOnly => 1
    case OldAndNewValue => 2
    case EventArgs => 1
  }

  /** A recognised handler declares exactly as many parameters as its shape says;
      every shape but the event-arguments one takes only the property's type; and
      a method with at most two parameters, all of the property's type, is always
      recognised. */
  lemma ClassifyHandlerSpec(paramTypes: seq<string>, typeName: string)
    ensures ClassifyHandler(paramTypes, typeName).Some? ==>
              var proto := ClassifyHandler(paramTypes, typeName).value;
              proto != Unsupported && |paramTypes| == ParameterCount(proto)
              && (proto == EventArgs <==> |paramTypes| == 1 && paramTypes[0] != typeName)
              && (proto != EventArgs ==> forall t :: t in paramTypes ==> t == typeName)
    ensures (|paramTypes| <= 2 && forall t :: t in paramTypes ==> t == typeName) ==> ClassifyHandler(paramTypes, typeName).Some?
    ensures ClassifyHandler(paramTypes, typeName).None? <==>
              |paramTypes| > 2 || (|paramTypes| == 2 && (paramTypes[0] != typeName || paramTypes[1] != typeName))
  {
    if |paramTypes| == 2 {
      assert paramTypes[0] in paramTypes && paramTypes[1] in paramTypes;
      assert forall t :: t in paramTypes ==> t == paramTypes[0] || t == paramTypes[1];
    } else if |paramTypes| == 1 {
      assert paramTypes[0] in paramTypes;
    }
  }

  // ---------------------------------------------------------------- the object

  /** A property record as the generator holds it: fixed at construction, except
      for what the `Mark*` methods and the handler classification update. */
  class PropertyData {
    const sourceLocation: Location
    const owner: OwnerInfo
    const name: string
    const typeName: string
    const isAuto: bool
    const isPartial: bool
    const isStatic: bool
    const isUnreadable: bool
    const hasAttribute: bool
    const shouldBeAttached: bool
    const shouldBeReadOnly: bool
    const inherits: bool
    const accessModifiers: string
    const methodModifiers: string
    const setterAccessModifiers: string
    var hasMultipleAttributes: bool
    var isDefaultValueWriteable: bool
    var defaultValueLocation: Option<Location>
    var coerceCallbackLocation: Option<Location>
    var validateCallbackLocation: Option<Location>
    var propertyChangedHandlerLocation: Option<Location>
    var prototype: HandlerPrototype

    /** The record's current state. */
    function Record(): PropertyRecord
      reads this
    {
      PropertyRecord(sourceLocation, owner, name, typeName, isAuto, isPartial, isStatic, isUnreadable,
                     hasAttribute, hasMultipleAttributes, isDefaultValueWriteable, defaultValueLocation,
                     coerceCallbackLocation, validateCallbackLocation, propertyChangedHandlerLocation, prototype,
                     shouldBeAttached, shouldBeReadOnly, inherits, accessModifiers, methodModifiers,
                     setterAccessModifiers)
    }

    constructor (r: PropertyRecord)
      ensures Record() == r
    {
      sourceLocation, owner, name, typeName := r.sourceLocation, r.owner, r.name, r.typeName;
      isAuto, isPartial, isStatic, isUnreadable := r.isAuto, r.isPartial, r.isStatic, r.isUnreadable;
      hasAttribute, shouldBeAttached, shouldBeReadOnly, inherits := r.hasAttribute, r.shouldBeAttached, r.shouldBeReadOnly, r.inherits;
      accessModifiers, methodModifiers, setterAccessModifiers := r.accessModifiers, r.methodModifiers, r.setterAccessModifiers;
      hasMultipleAttributes, isDefaultValueWriteable := r.hasMultipleAttributes, r.isDefaultValueWriteable;
      defaultValueLocation, coerceCallbackLocation := r.defaultValueLocation, r.coerceCallbackLocation;
      validateCallbackLocation, propertyChangedHandlerLocation := r.validateCallbackLocation, r.propertyChangedHandlerLocation;
      prototype := r.prototype;
    }

    /** The property constructor, with the attribute scan of the shared one. */
    static method ForProperty(owner: OwnerInfo, p: PropertyDecl) returns (r: Result<PropertyData>)
      ensures r.Ok? <==> PropertyRecordOf(owner, p).Ok?
      ensures r.Err? ==> r.error == PropertyRecordOf(owner, p).error
      ensures r.Ok? ==> fresh(r.value) && r.value.Record() == PropertyRecordOf(owner, p).value
    {
      var scan := ScanMarkerAttributes(p.attributeLists, DependencyPropertyMarker);
      if scan.Err? {
        return Err(scan.error);
      }
      var setter := if p.accessors.Some? then FirstSetter(p.accessors.value) else None;
      var methodModifiers := GetMethodModifiers(p.modifiers);
      var rec := PropertyRecord(
        sourceLocation := p.loc, owner := owner, name := p.name, typeName := p.typeText,
        isAuto := IsAutoProperty(p), isPartial := Partial in p.modifiers, isStatic := Static in p.modifiers,
        isUnreadable := IsUnreadableProperty(p),
        hasAttribute := scan.value.hasAttribute, hasMultipleAttributes := scan.value.hasMultipleAttributes,
        isDefaultValueWriteable := false, defaultValueLocation := None, coerceCallbackLocation := None,
        validateCallbackLocation := None, propertyChangedHandlerLocation := None, prototype := Unsupported,
        shouldBeAttached := false, shouldBeReadOnly := setter.None?, inherits := scan.value.inherits,
        accessModifiers := GetAccessModifiers(p.modifiers), methodModifiers := methodModifiers,
        setterAccessModifiers := if setter.Some? then GetAccessModifiers(setter.value.modifiers) else "");
      var data := new PropertyData(rec);
      r := Ok(data);
    }

    /** The field constructor, with the attribute scan of the shared one. */
    static method ForField(owner: OwnerInfo, f: FieldDecl, d: Declarator) returns (r: Result<PropertyData>)
      ensures r.Ok? <==> FieldRecordOf(owner, f, d).Ok?
      ensures r.Err? ==> r.error == FieldRecordOf(owner, f, d).error
      ensures r.Ok? ==> fresh(r.value) && r.value.Record() == FieldRecordOf(owner, f, d).value
    {
      var scan := ScanMarkerAttributes(f.attributeLists, AttachedPropertyMarker);
      if scan.Err? {
        return Err(scan.error);
      }
      var stripped := Strip(owner.defaultValueName, d.name);
      var rec := PropertyRecord(
        sourceLocation := d.loc, owner := owner, name := if stripped.Some? then stripped.value else "",
        typeName := f.typeText,
        isAuto := false, isPartial := Partial in f.modifiers, isStatic := Static in f.modifiers,
        isUnreadable := false,
        hasAttribute := scan.value.hasAttribute, hasMultipleAttributes := scan.value.hasMultipleAttributes,
        isDefaultValueWriteable := false, defaultValueLocation := None, coerceCallbackLocation := None,
        validateCallbackLocation := None, propertyChangedHandlerLocation := None, prototype := Unsupported,
        shouldBeAttached := true, shouldBeReadOnly := false, inherits := scan.value.inherits,
        accessModifiers := GetAccessModifiers(f.modifiers), methodModifiers := "", setterAccessModifiers := "");
      var data := new PropertyData(rec);
      r := Ok(data);
    }

    /** Classifies a changed-handler method; on success records its shape and
        location, otherwise changes nothing. */
    method FindPropertyChangedHandlerPrototype(m: MethodDecl) returns (found: bool)
      modifies this
      ensures found <==> ClassifyHandler(m.paramTypes, typeName).Some?
      ensures found ==> Record() == old(Record()).(prototype := ClassifyHandler(m.paramTypes, typeName).value,
                                                   propertyChangedHandlerLocation := Some(m.loc))
      ensures !found ==> Record() == old(Record())
    {
      var loc := m.loc;
      var paramsCount := |m.paramTypes|;
      var proto: HandlerPrototype;
      if paramsCount == 0 {
        proto := Empty;
      } else if paramsCount == 1 {
        if m.paramTypes[0] == typeName {
          proto := NewValueOnly;
        } else {
          proto := EventArgs;
        }
      } else if paramsCount == 2 {
        if m.paramTypes[0] != typeName || m.paramTypes[1] != typeName {
          return false;
        }
        proto := OldAndNewValue;
      } else {
        return false;
      }
      prototype := proto;
      propertyChangedHandlerLocation := Some(loc);
      return true;
    }

    /** Records a changed handler of the given shape; an unsupported one is
        recorded at `Location.None`, so the record still counts as having one. */
    method MarkHavingChangedHandler(location: Location, handlerPrototype: HandlerPrototype)
      modifies this
      ensures Record() == old(Record()).(
                propertyChangedHandlerLocation := Some(if handlerPrototype == Unsupported then NoLocation else location),
                prototype := handlerPrototype)
      ensures Record().HasPropertyChangedHandler()
    {
      if handlerPrototype == Unsupported {
        propertyChangedHandlerLocation := Some(NoLocation);
      } else {
        propertyChangedHandlerLocation := Some(location);
      }
      prototype := handlerPrototype;
    }

    method MarkHavingDuplicate()
      modifies this
      ensures Record() == old(Record()).(hasMultipleAttributes := true)
    {
      hasMultipleAttributes := true;
    }

    method MarkHavingDefaultValue(location: Location)
      modifies this
      ensures Record() == old(Record()).(defaultValueLocation := Some(location))
    {
      defaultValueLocation := Some(location);
    }

    method MarkHavingWriteableDefaultValue()
      modifies this
      ensures Record() == old(Record()).(isDefaultValueWriteable := true)
    {
      isDefaultValueWriteable := true;
    }

    method MarkHavingCoerceCallback(location: Location)
      modifies this
      ensures Record() == old(Record()).(coerceCallbackLocation := Some(location))
    {
      coerceCallbackLocation := Some(location);
    }

    method MarkHavingValidationCallback(location: Location)
      modifies this
      ensures Record() == old(Record()).(validateCallbackLocation := Some(location))
    {
      validateCallbackLocation := Some(location);
    }
  }
}
