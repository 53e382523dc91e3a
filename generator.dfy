/** The generator's `Execute` (DepRosGenerator.cs): the checks run on every
    property and every class, the gate that decides whether a class gets a
    generated file, and the file's name. Diagnostics are returned in the order
    they are reported; the files in the order they are added. */
module Generator {
  import opened Wrappers
  import opened Syntax
  import opened Owners
  import opened Properties
  import opened Analysis
  import opened PropertyEmission
  import opened Classes

  // ---------------------------------------------------------------- diagnostics

  /** The descriptors of Diagnostics.cs. */
  datatype DiagnosticCode =
    | InvalidProperty                      // DR0001
    | InvalidPropOwner                     // DR0002
    | IsUnreadable                         // DR0003
    | UnknownToolkit                       // DR0004
    | DefaultValueIsWriteable              // DR0005
    | InheritanceIsUnsupported             // DR0006
    | TooManyAttributes                    // DR0007
    | NonAttachedButInheritable            // DR0008
    | ValidationIsUnsupported              // DR0009
    | CoercionIsUnsupported                // DR0010
    | InheritanceRequiresFrameworkElement  // DR0011
    | UnsupportedPropertyChangedHandler    // DR0012

  datatype Severity = Error | Warning

  function SeverityOf(c: DiagnosticCode): Severity {
    match c
    case DefaultValueIsWriteable => Warning
    case NonAttachedButInheritable => Warning
    case ValidationIsUnsupported => Warning
    case CoercionIsUnsupported => Warning
    case UnsupportedPropertyChangedHandler => Warning
    case _ => Error
  }

  /** A reported diagnostic: its descriptor, where, and the message arguments. */
  datatype Diagnostic = Diagnostic(code: DiagnosticCode, loc: Location, args: seq<string>)

  /** A location that may be missing is reported as no location. */
  function LocationOf(loc: Option<Location>): Location {
    if loc.Some? then loc.value else NoLocation
  }

  function When(cond: bool, d: Diagnostic): seq<Diagnostic> {
    if cond then [d] else []
  }

  /** Some diagnostic among `ds` is an error. */
  predicate HasError(ds: seq<Diagnostic>) {
    exists k :: 0 <= k < |ds| && SeverityOf(ds[k].code) == Error
  }

  predicate Reports(ds: seq<Diagnostic>, c: DiagnosticCode) {
    exists k :: 0 <= k < |ds| && ds[k].code == c
  }

  // ---------------------------------------------------------------- per property

  /** How many checks run on each property. */
  const CheckCount: nat := 9

  /** The checks run on each property, in the order they run. */
  function CheckAt(j: nat): DiagnosticCode
    requires j < CheckCount
  {
    if j == 0 then TooManyAttributes
    else if j == 1 then InvalidProperty
    else if j == 2 then IsUnreadable
    else if j == 3 then InheritanceIsUnsupported
    else if j == 4 then InheritanceRequiresFrameworkElement
    else if j == 5 then DefaultValueIsWriteable
    else if j == 6 then CoercionIsUnsupported
    else if j == 7 then ValidationIsUnsupported
    else NonAttachedButInheritable
  }

  /** Where a check runs among the property checks; `CheckCount` for the class
      checks and for DR0012, which no property check reports. */
  function Position(c: DiagnosticCode): (j: nat)
    ensures j <= CheckCount
    ensures j < CheckCount ==> CheckAt(j) == c
  {
    match c
    case TooManyAttributes => 0
    case InvalidProperty => 1
    case IsUnreadable => 2
    case InheritanceIsUnsupported => 3
    case InheritanceRequiresFrameworkElement => 4
    case DefaultValueIsWriteable => 5
    case CoercionIsUnsupported => 6
    case ValidationIsUnsupported => 7
    case NonAttachedButInheritable => 8
    case _ => CheckCount
  }

  lemma PositionOfCheck(j: nat)
    requires j < CheckCount
    ensures Position(CheckAt(j)) == j
  {
  }

  /** The condition under which a check fires on a property. The toolkit and the
      framework-element flag are the class's. */
  predicate Fires(info: OwnerInfo, r: PropertyRecord, c: DiagnosticCode) {
    match c
    case TooManyAttributes => r.hasMultipleAttributes
    case InvalidProperty => !r.shouldBeAttached && (!r.isAuto || !r.isPartial)
    case IsUnreadable => r.isUnreadable
    case InheritanceIsUnsupported => r.inherits && info.toolkit != Avalonia && info.toolkit != Wpf
    case InheritanceRequiresFrameworkElement => r.inherits && info.toolkit == Wpf && !info.isFrameworkElement
    case DefaultValueIsWriteable => r.isDefaultValueWriteable
    case CoercionIsUnsupported => r.HasCoerceCallback() && info.toolkit != Avalonia && info.toolkit != Wpf
    case ValidationIsUnsupported => r.HasValidateCallback() && info.toolkit != Wpf
    case NonAttachedButInheritable => r.inherits && !r.shouldBeAttached
    case _ => false
  }

  /** The diagnostic a check reports: at the member it is about, with the
      property's name and the owner's full name (its simple name for DR0005). */
  function Report(r: PropertyRecord, c: DiagnosticCode): Diagnostic {
    match c
    case DefaultValueIsWriteable => Diagnostic(c, LocationOf(r.defaultValueLocation), [r.name, r.owner.name])
    case CoercionIsUnsupported => Diagnostic(c, LocationOf(r.coerceCallbackLocation), [r.name, r.owner.fullName])
    case ValidationIsUnsupported => Diagnostic(c, LocationOf(r.validateCallbackLocation), [r.name, r.owner.fullName])
    case _ => Diagnostic(c, r.sourceLocation, [r.name, r.owner.fullName])
  }

  /** What the first `n` checks report. */
  function Checked(info: OwnerInfo, r: PropertyRecord, n: nat): seq<Diagnostic>
    requires n <= CheckCount
  {
    if n == 0 then []
    else
      var c := CheckAt(n - 1);
      Checked(info, r, n - 1) + When(Fires(info, r, c), Report(r, c))
  }

  /** One more check appends what it reports. */
  lemma CheckedStep(info: OwnerInfo, r: PropertyRecord, j: nat, prev: seq<Diagnostic>, fires: bool, d: Diagnostic)
    requires j < CheckCount && prev == Checked(info, r, j)
    requires fires == Fires(info, r, CheckAt(j)) && d == Report(r, CheckAt(j))
    ensures prev + When(fires, d) == Checked(info, r, j + 1)
  {
  }

  /** Everything reported about one property, in order. */
  function PropertyDiagnostics(info: OwnerInfo, r: PropertyRecord): seq<Diagnostic> {
    Checked(info, r, CheckCount)
  }

  /** A property is left out of generation: one of the five error checks fires. */
  predicate Erroneous(info: OwnerInfo, r: PropertyRecord) {
    || r.hasMultipleAttributes
    || (!r.shouldBeAttached && (!r.isAuto || !r.isPartial))
    || r.isUnreadable
    || (r.inherits && info.toolkit != Avalonia && info.toolkit != Wpf)
    || (r.inherits && info.toolkit == Wpf && !info.isFrameworkElement)
  }

  /** Only checks among the first `n` report, only when they fire, and each
      reports its own diagnostic. */
  lemma {:induction false} CheckedSound(info: OwnerInfo, r: PropertyRecord, n: nat)
    requires n <= CheckCount
    ensures forall k :: 0 <= k < |Checked(info, r, n)| ==>
              && Position(Checked(info, r, n)[k].code) < n
              && Fires(info, r, Checked(info, r, n)[k].code)
              && Checked(info, r, n)[k] == Report(r, Checked(info, r, n)[k].code)
  {
    if n > 0 {
      CheckedSound(info, r, n - 1);
      PositionOfCheck(n - 1);
    }
  }

  /** Every check among the first `n` that fires has reported. */
  lemma {:induction false} CheckedComplete(info: OwnerInfo, r: PropertyRecord, n: nat, c: DiagnosticCode)
    requires n <= CheckCount && Position(c) < n && Fires(info, r, c)
    ensures Reports(Checked(info, r, n), c)
  {
    var prev := Checked(info, r, n - 1);
    var last := CheckAt(n - 1);
    if Position(c) == n - 1 {
      assert c == last;
      assert Checked(info, r, n) == prev + [Report(r, c)];
      assert Checked(info, r, n)[|prev|].code == c;
    } else {
      CheckedComplete(info, r, n - 1, c);
      var k :| 0 <= k < |prev| && prev[k].code == c;
      assert Checked(info, r, n)[k] == prev[k];
    }
  }

  /** The checks report in the order they run. */
  lemma {:induction false} CheckedOrdered(info: OwnerInfo, r: PropertyRecord, n: nat)
    requires n <= CheckCount
    ensures forall a, b :: 0 <= a < b < |Checked(info, r, n)| ==>
              Position(Checked(info, r, n)[a].code) < Position(Checked(info, r, n)[b].code)
  {
    if n > 0 {
      CheckedOrdered(info, r, n - 1);
      CheckedSound(info, r, n - 1);
      PositionOfCheck(n - 1);
    }
  }

  /** Every check runs: each code is reported exactly when its condition holds,
      in the order the checks run, so once at most; a property may draw
      several diagnostics at once. */
  lemma PropertyChecksAllRun(info: OwnerInfo, r: PropertyRecord, c: DiagnosticCode)
    ensures Reports(PropertyDiagnostics(info, r), c) <==> Position(c) < CheckCount && Fires(info, r, c)
    ensures forall a, b :: 0 <= a < b < |PropertyDiagnostics(info, r)| ==>
              Position(PropertyDiagnostics(info, r)[a].code) < Position(PropertyDiagnostics(info, r)[b].code)
    ensures forall k :: 0 <= k < |PropertyDiagnostics(info, r)| ==>
              PropertyDiagnostics(info, r)[k] == Report(r, PropertyDiagnostics(info, r)[k].code)
  {
    CheckedSound(info, r, CheckCount);
    CheckedOrdered(info, r, CheckCount);
    if Position(c) < CheckCount && Fires(info, r, c) {
      CheckedComplete(info, r, CheckCount, c);
    }
  }

  /** A property is left out exactly when one of its diagnostics is an error;
      the four warnings never leave it out. */
  lemma ErroneousIff(info: OwnerInfo, r: PropertyRecord)
    ensures Erroneous(info, r) <==> HasError(PropertyDiagnostics(info, r))
  {
    var ds := PropertyDiagnostics(info, r);
    if HasError(ds) {
      var k :| 0 <= k < |ds| && SeverityOf(ds[k].code) == Error;
      PropertyChecksAllRun(info, r, ds[k].code);
    }
    if Erroneous(info, r) {
      var c :=
        if r.hasMultipleAttributes then TooManyAttributes
        else if !r.shouldBeAttached && (!r.isAuto || !r.isPartial) then InvalidProperty
        else if r.isUnreadable then IsUnreadable
        else if info.toolkit == Wpf then InheritanceRequiresFrameworkElement
        else InheritanceIsUnsupported;
      PropertyChecksAllRun(info, r, c);
      var k :| 0 <= k < |ds| && ds[k].code == c;
      assert SeverityOf(ds[k].code) == Error;
    }
  }

  /** The checks on one property as `Execute` runs them: each appends its
      diagnostic when its condition holds; the errors come first and raise the
      flag, the warnings follow. */
  method CheckProperty(info: OwnerInfo, r: PropertyRecord) returns (diags: seq<Diagnostic>, erred: bool)
    ensures diags == PropertyDiagnostics(info, r)
    ensures erred <==> Erroneous(info, r)
  {
    diags, erred := CheckErrors(info, r);
    diags := CheckWarnings(info, r, diags);
  }

  /** The five checks that make a property erroneous. */
  method CheckErrors(info: OwnerInfo, r: PropertyRecord) returns (diags: seq<Diagnostic>, erred: bool)
    ensures diags == Checked(info, r, 5)
    ensures erred <==> Erroneous(info, r)
  {
    var args := [r.name, r.owner.fullName];
    var fails: bool;
    var d: Diagnostic;
    diags := [];
    erred := false;

    fails := r.hasMultipleAttributes;
    d := Diagnostic(TooManyAttributes, r.sourceLocation, args);
    CheckedStep(info, r, 0, diags, fails, d);
    diags, erred := diags + When(fails, d), erred || fails;

    fails := !r.shouldBeAttached && (!r.isAuto || !r.isPartial);
    d := Diagnostic(InvalidProperty, r.sourceLocation, args);
    CheckedStep(info, r, 1, diags, fails, d);
    diags, erred := diags + When(fails, d), erred || fails;

    fails := r.isUnreadable;
    d := Diagnostic(IsUnreadable, r.sourceLocation, args);
    CheckedStep(info, r, 2, diags, fails, d);
    diags, erred := diags + When(fails, d), erred || fails;

    fails := r.inherits && info.toolkit != Avalonia && info.toolkit != Wpf;
    d := Diagnostic(InheritanceIsUnsupported, r.sourceLocation, args);
    CheckedStep(info, r, 3, diags, fails, d);
    diags, erred := diags + When(fails, d), erred || fails;

    fails := r.inherits && info.toolkit == Wpf && !info.isFrameworkElement;
    d := Diagnostic(InheritanceRequiresFrameworkElement, r.sourceLocation, args);
    CheckedStep(info, r, 4, diags, fails, d);
    diags, erred := diags + When(fails, d), erred || fails;
  }

  /** The four checks that only warn, after the errors. */
  method CheckWarnings(info: OwnerInfo, r: PropertyRecord, errors: seq<Diagnostic>) returns (diags: seq<Diagnostic>)
    requires errors == Checked(info, r, 5)
    ensures diags == PropertyDiagnostics(info, r)
  {
    var args := [r.name, r.owner.fullName];
    var warns: bool;
    var d: Diagnostic;
    diags := errors;

    warns := r.isDefaultValueWriteable;
    d := Diagnostic(DefaultValueIsWriteable, LocationOf(r.defaultValueLocation), [r.name, r.owner.name]);
    CheckedStep(info, r, 5, diags, warns, d);
    diags := diags + When(warns, d);

    warns := r.HasCoerceCallback() && info.toolkit != Avalonia && info.toolkit != Wpf;
    d := Diagnostic(CoercionIsUnsupported, LocationOf(r.coerceCallbackLocation), args);
    CheckedStep(info, r, 6, diags, warns, d);
    diags := diags + When(warns, d);

    warns := r.HasValidateCallback() && info.toolkit != Wpf;
    d := Diagnostic(ValidationIsUnsupported, LocationOf(r.validateCallbackLocation), args);
    CheckedStep(info, r, 7, diags, warns, d);
    diags := diags + When(warns, d);

    warns := r.inherits && !r.shouldBeAttached;
    d := Diagnostic(NonAttachedButInheritable, r.sourceLocation, args);
    CheckedStep(info, r, 8, diags, warns, d);
    diags := diags + When(warns, d);
  }

  // ---------------------------------------------------------------- per class

  /** The diagnostics of every property in turn. */
  function AllDiagnostics(info: OwnerInfo, recs: seq<PropertyRecord>): seq<Diagnostic> {
    if recs == [] then []
    else AllDiagnostics(info, recs[..|recs| - 1]) + PropertyDiagnostics(info, recs[|recs| - 1])
  }

  /** How many properties `validProperties` receives: the flag is never lowered,
      so adding stops at the first erroneous property. */
  function ValidCount(info: OwnerInfo, recs: seq<PropertyRecord>): (n: nat)
    ensures n <= |recs|
  {
    if recs == [] then 0
    else
      var n := ValidCount(info, recs[..|recs| - 1]);
      if n == |recs| - 1 && !Erroneous(info, recs[|recs| - 1]) then n + 1 else n
  }

  /** The valid properties are the longest error-free prefix. */
  lemma {:induction false} ValidCountIsCleanPrefix(info: OwnerInfo, recs: seq<PropertyRecord>)
    ensures forall k :: 0 <= k < ValidCount(info, recs) ==> !Erroneous(info, recs[k])
    ensures ValidCount(info, recs) < |recs| ==> Erroneous(info, recs[ValidCount(info, recs)])
  {
    if recs != [] {
      var init := recs[..|recs| - 1];
      ValidCountIsCleanPrefix(info, init);
      assert forall k :: 0 <= k < |init| ==> init[k] == recs[k];
    }
  }

  /** The flag is up after a prefix exactly when some property in it erred. */
  lemma {:induction false} ValidCountShort(info: OwnerInfo, recs: seq<PropertyRecord>)
    ensures ValidCount(info, recs) < |recs| <==> exists k :: 0 <= k < |recs| && Erroneous(info, recs[k])
  {
    ValidCountIsCleanPrefix(info, recs);
    if ValidCount(info, recs) < |recs| {
      assert Erroneous(info, recs[ValidCount(info, recs)]);
    }
  }

  /** One more property through the loop: its diagnostics are appended, and it
      joins the valid ones only while the flag is down. */
  lemma ValidationStep(info: OwnerInfo, recs: seq<PropertyRecord>, i: nat,
                       diags: seq<Diagnostic>, ds: seq<Diagnostic>, erred: bool, flag: bool)
    requires i < |recs| && diags == AllDiagnostics(info, recs[..i]) && ds == PropertyDiagnostics(info, recs[i])
    requires erred <==> Erroneous(info, recs[i])
    requires ValidCount(info, recs[..i]) <= i && (flag <==> ValidCount(info, recs[..i]) < i)
    ensures diags + ds == AllDiagnostics(info, recs[..i + 1])
    ensures flag || erred <==> ValidCount(info, recs[..i + 1]) < i + 1
    ensures ValidCount(info, recs[..i + 1]) == if flag || erred then ValidCount(info, recs[..i]) else i + 1
  {
    assert recs[..i + 1][..i] == recs[..i];
  }

  /** The property loop of `Execute`. */
  method ValidateProperties(info: OwnerInfo, props: seq<PropertyData>)
      returns (diags: seq<Diagnostic>, valid: seq<PropertyData>, hasPropErrors: bool)
    ensures diags == AllDiagnostics(info, Records(props))
    ensures valid == props[..ValidCount(info, Records(props))]
    ensures hasPropErrors <==> exists k :: 0 <= k < |props| && Erroneous(info, Records(props)[k])
  {
    diags, valid, hasPropErrors := ValidateRecords(info, props, Records(props));
  }

  /** The loop over the properties, each item carrying its record. */
  method ValidateRecords<T>(info: OwnerInfo, items: seq<T>, recs: seq<PropertyRecord>)
      returns (diags: seq<Diagnostic>, valid: seq<T>, hasPropErrors: bool)
    requires |items| == |recs|
    ensures diags == AllDiagnostics(info, recs)
    ensures valid == items[..ValidCount(info, recs)]
    ensures hasPropErrors <==> exists k :: 0 <= k < |recs| && Erroneous(info, recs[k])
  {
    diags := [];
    valid := [];
    hasPropErrors := false;
    var i := 0;
    while i < |recs|
      invariant 0 <= i <= |recs|
      invariant diags == AllDiagnostics(info, recs[..i])
      invariant valid == items[..ValidCount(info, recs[..i])]
      invariant ValidCount(info, recs[..i]) <= i
      invariant hasPropErrors <==> ValidCount(info, recs[..i]) < i
    {
      var ds, erred := CheckProperty(info, recs[i]);
      ValidationStep(info, recs, i, diags, ds, erred, hasPropErrors);
      diags := diags + ds;
      if erred {
        hasPropErrors := true;
      }
      if !hasPropErrors {
        TakeSnoc(items, i);
        valid := valid + [items[i]];
      }
      i := i + 1;
    }
    assert recs[..i] == recs;
    ValidCountShort(info, recs);
  }

  /** The checks on the class itself. */
  function OwnerDiagnostics(info: OwnerInfo): seq<Diagnostic> {
    When(!info.isPartial || info.isInner || !info.isClass, Diagnostic(InvalidPropOwner, info.identifierLoc, [info.fullName]))
    + When(info.toolkit == Unknown, Diagnostic(UnknownToolkit, info.identifierLoc, [info.fullName]))
  }

  /** The class cannot get a file: it is not a partial, top-level class, or
      its toolkit is unknown. */
  predicate OwnerErroneous(info: OwnerInfo) {
    !info.isPartial || info.isInner || !info.isClass || info.toolkit == Unknown
  }

  /** Both class checks are errors, and each is reported exactly when its
      condition holds. */
  lemma OwnerErroneousIff(info: OwnerInfo)
    ensures OwnerErroneous(info) <==> HasError(OwnerDiagnostics(info))
    ensures Reports(OwnerDiagnostics(info), InvalidPropOwner) <==> !info.isPartial || info.isInner || !info.isClass
    ensures Reports(OwnerDiagnostics(info), UnknownToolkit) <==> info.toolkit == Unknown
  {
    var od := OwnerDiagnostics(info);
    var bad := !info.isPartial || info.isInner || !info.isClass;
    if bad {
      assert od[0].code == InvalidPropOwner;
    }
    if info.toolkit == Unknown {
      assert od[|od| - 1].code == UnknownToolkit;
    }
    if !bad && info.toolkit != Unknown {
      assert od == [];
    }
  }

  /** The checks on the class, after its properties. */
  method CheckOwner(info: OwnerInfo) returns (diags: seq<Diagnostic>, erred: bool)
    ensures diags == OwnerDiagnostics(info)
    ensures erred <==> OwnerErroneous(info)
  {
    diags := [];
    erred := false;
    if !info.isPartial || info.isInner || !info.isClass {
      diags := diags + [Diagnostic(InvalidPropOwner, info.identifierLoc, [info.fullName])];
      erred := true;
    }
    if info.toolkit == Unknown {
      diags := diags + [Diagnostic(UnknownToolkit, info.identifierLoc, [info.fullName])];
      erred := true;
    }
  }

  /** The gate: some valid property and no error raised, on a property or on the class. */
  predicate Admitted(s: ClassSnapshot) {
    ValidCount(s.info, s.records) > 0
    && !(exists k :: 0 <= k < |s.records| && Erroneous(s.info, s.records[k]))
    && !OwnerErroneous(s.info)
  }

  /** All or nothing: a class gets a file exactly when it has properties and
      neither it nor any of its properties has an error; the file then holds
      every property. */
  lemma AdmittedIff(s: ClassSnapshot)
    ensures Admitted(s) <==>
              && |s.records| > 0
              && (forall k :: 0 <= k < |s.records| ==> !Erroneous(s.info, s.records[k]))
              && s.info.isPartial && !s.info.isInner && s.info.isClass
              && s.info.toolkit != Unknown
    ensures Admitted(s) ==> ValidCount(s.info, s.records) == |s.records|
  {
    ValidCountShort(s.info, s.records);
  }

  /** The name of the generated file. */
  function FileName(info: OwnerInfo): string {
    "DepRos-" + info.namespace + "-" + info.name + ".g.cs"
  }

  datatype Source = Source(fileName: string, lines: seq<string>)

  /** What `Execute` does for one class: its diagnostics, and its file if admitted. */
  datatype ClassOutcome = ClassOutcome(diagnostics: seq<Diagnostic>, source: Option<Source>)

  /** One class through `Execute`, with the code each record gets from `emit`. */
  function OutcomeWith(s: ClassSnapshot, emit: PropertyRecord -> Result<seq<string>>): Result<ClassOutcome> {
    var diags := AllDiagnostics(s.info, s.records) + OwnerDiagnostics(s.info);
    if !Admitted(s) then Ok(ClassOutcome(diags, None))
    else
      var code := SupplementalCode(s.info, s.records, emit);
      if code.Err? then Err(code.error)
      else Ok(ClassOutcome(diags, Some(Source(FileName(s.info), code.value))))
  }

  function Outcome(s: ClassSnapshot): Result<ClassOutcome> {
    OutcomeWith(s, GenerateDependencyProperty)
  }

  /** One class through `Execute`, with the shared emitter as written. */
  function OutcomeAsWritten(s: ClassSnapshot): Result<ClassOutcome> {
    OutcomeWith(s, GenerateDependencyPropertyAsWritten)
  }

  /** Once admitted, a class's file is written whenever every record has code. */
  lemma OutcomeWithEmits(s: ClassSnapshot, emit: PropertyRecord -> Result<seq<string>>)
    requires forall k :: 0 <= k < |s.records| ==> emit(s.records[k]).Ok?
    ensures OutcomeWith(s, emit).Ok?
    ensures OutcomeWith(s, emit).value.diagnostics == AllDiagnostics(s.info, s.records) + OwnerDiagnostics(s.info)
    ensures OutcomeWith(s, emit).value.source.Some? <==> Admitted(s)
    ensures Admitted(s) ==>
              && OutcomeWith(s, emit).value.source.value.fileName == FileName(s.info)
              && OutcomeWith(s, emit).value.source.value.lines == SupplementalCode(s.info, s.records, emit).value
  {
    SupplementalCodeFrame(s.info, s.records, emit);
  }

  /** Once admitted, one record without code loses the whole class. */
  lemma OutcomeWithFails(s: ClassSnapshot, emit: PropertyRecord -> Result<seq<string>>, k: nat)
    requires Admitted(s) && k < |s.records| && emit(s.records[k]).Err?
    ensures OutcomeWith(s, emit).Err?
  {
    SupplementalCodeFrame(s.info, s.records, emit);
  }

  /** Every property of an admitted class has code. */
  lemma AdmittedRecordsEmit(s: ClassSnapshot)
    requires OwnedBy(s.info, s.records) && Admitted(s)
    ensures forall k :: 0 <= k < |s.records| ==> GenerateDependencyProperty(s.records[k]).Ok?
  {
    AdmittedIff(s);
    forall k | 0 <= k < |s.records| ensures GenerateDependencyProperty(s.records[k]).Ok? {
      GenerateFailsOnlyOn(s.records[k]);
    }
  }

  /** The gate is enough: every admitted class gets its file, holding every
      property's code, under `DepRos-{namespace}-{name}.g.cs`. */
  lemma AdmittedClassEmits(s: ClassSnapshot)
    requires OwnedBy(s.info, s.records)
    ensures Outcome(s).Ok?
    ensures Outcome(s).value.diagnostics == AllDiagnostics(s.info, s.records) + OwnerDiagnostics(s.info)
    ensures Outcome(s).value.source.Some? <==> Admitted(s)
    ensures Admitted(s) ==>
              && Outcome(s).value.source.value.fileName == FileName(s.info)
              && Outcome(s).value.source.value.lines == SupplementalCode(s.info, s.records, GenerateDependencyProperty).value
  {
    if Admitted(s) {
      AdmittedRecordsEmit(s);
      OutcomeWithEmits(s, GenerateDependencyProperty);
    }
  }

  /** As written, a WinUI class whose property has a coerce callback passes the
      gate with only a DR0010 warning, and then its file cannot be written. */
  lemma WinUICoerceAdmittedAsWrittenFails(s: ClassSnapshot, k: nat)
    requires OwnedBy(s.info, s.records) && Admitted(s)
    requires s.info.toolkit == WinUI && k < |s.records| && s.records[k].HasCoerceCallback()
    ensures Reports(PropertyDiagnostics(s.info, s.records[k]), CoercionIsUnsupported)
    ensures SeverityOf(CoercionIsUnsupported) == Warning
    ensures OutcomeAsWritten(s).Err?
    ensures Outcome(s).Ok? && Outcome(s).value.source.Some?
  {
    assert Fires(s.info, s.records[k], CoercionIsUnsupported);
    PropertyChecksAllRun(s.info, s.records[k], CoercionIsUnsupported);
    AdmittedClassEmits(s);
    MsCoerceThrowsAsWritten(s.records[k]);
    OutcomeWithFails(s, GenerateDependencyPropertyAsWritten, k);
  }

  /** One class of `Execute`: the checks, the gate, and the file. */
  method ProcessClass(cd: ClassData) returns (r: Result<ClassOutcome>)
    ensures r == Outcome(Snapshot(cd))
  {
    var diags, valid, hasPropErrors := ValidateProperties(cd.info, cd.properties);
    var ownerDiags, ownerErred := CheckOwner(cd.info);
    diags := diags + ownerDiags;
    if ownerErred {
      hasPropErrors := true;
    }
    if |valid| == 0 || hasPropErrors {
      return Ok(ClassOutcome(diags, None));
    }
    var code := GenerateSupplementalCode(cd);
    if code.Err? {
      return Err(code.error);
    }
    var fileName := "DepRos-" + cd.info.namespace + "-" + cd.info.name + ".g.cs";
    r := Ok(ClassOutcome(diags, Some(Source(fileName, code.value))));
  }

  // ---------------------------------------------------------------- all classes

  /** Everything `Execute` reports and adds. */
  datatype Output = Output(diagnostics: seq<Diagnostic>, sources: seq<Source>)

  function Added(o: ClassOutcome): seq<Source> {
    if o.source.Some? then [o.source.value] else []
  }

  /** `Execute` over the queued classes, each going through `outcome`; an
      exception ends it. */
  function ExecuteWith(classes: seq<ClassSnapshot>, outcome: ClassSnapshot -> Result<ClassOutcome>): Result<Output> {
    if classes == [] then Ok(Output([], []))
    else
      var prev := ExecuteWith(classes[..|classes| - 1], outcome);
      if prev.Err? then prev
      else
        var o := outcome(classes[|classes| - 1]);
        if o.Err? then Err(o.error)
        else Ok(Output(prev.value.diagnostics + o.value.diagnostics, prev.value.sources + Added(o.value)))
  }

  /** How many classes get a file. */
  function SourceCount(classes: seq<ClassSnapshot>, outcome: ClassSnapshot -> Result<ClassOutcome>): nat
    requires forall k :: 0 <= k < |classes| ==> outcome(classes[k]).Ok?
  {
    if classes == [] then 0
    else
      SourceCount(classes[..|classes| - 1], outcome)
      + (if outcome(classes[|classes| - 1]).value.source.Some? then 1 else 0)
  }

  /** When no class throws, nothing does, and one file is added per class that has one. */
  lemma {:induction false} ExecuteWithAddsSources(classes: seq<ClassSnapshot>, outcome: ClassSnapshot -> Result<ClassOutcome>)
    requires forall k :: 0 <= k < |classes| ==> outcome(classes[k]).Ok?
    ensures ExecuteWith(classes, outcome).Ok?
    ensures |ExecuteWith(classes, outcome).value.sources| == SourceCount(classes, outcome)
  {
    if classes != [] {
      var init := classes[..|classes| - 1];
      assert forall k :: 0 <= k < |init| ==> init[k] == classes[k];
      ExecuteWithAddsSources(init, outcome);
    }
  }

  /** How many classes are admitted. */
  function AdmittedCount(classes: seq<ClassSnapshot>): nat {
    if classes == [] then 0
    else AdmittedCount(classes[..|classes| - 1]) + (if Admitted(classes[|classes| - 1]) then 1 else 0)
  }

  /** With every record owned by its class, as the constructor guarantees,
      `Execute` never fails and adds one file per admitted class. */
  lemma {:induction false} ExecuteAddsAdmitted(classes: seq<ClassSnapshot>)
    requires forall k :: 0 <= k < |classes| ==> OwnedBy(classes[k].info, classes[k].records)
    ensures ExecuteWith(classes, Outcome).Ok?
    ensures |ExecuteWith(classes, Outcome).value.sources| == AdmittedCount(classes)
  {
    forall k | 0 <= k < |classes| ensures Outcome(classes[k]).Ok? {
      AdmittedClassEmits(classes[k]);
    }
    ExecuteWithAddsSources(classes, Outcome);
    SourcesAreAdmitted(classes);
  }

  lemma {:induction false} SourcesAreAdmitted(classes: seq<ClassSnapshot>)
    requires forall k :: 0 <= k < |classes| ==> OwnedBy(classes[k].info, classes[k].records)
    requires forall k :: 0 <= k < |classes| ==> Outcome(classes[k]).Ok?
    ensures SourceCount(classes, Outcome) == AdmittedCount(classes)
  {
    if classes != [] {
      var init := classes[..|classes| - 1];
      assert forall k :: 0 <= k < |init| ==> init[k] == classes[k];
      SourcesAreAdmitted(init);
      AdmittedClassEmits(classes[|classes| - 1]);
    }
  }

  function Snapshots(classes: seq<ClassData>): (r: seq<ClassSnapshot>)
    reads set k, p | 0 <= k < |classes| && p in classes[k].properties :: p
    ensures |r| == |classes| && forall k :: 0 <= k < |classes| ==> r[k] == Snapshot(classes[k])
  {
    seq(|classes|, k requires 0 <= k < |classes| reads set k, p | 0 <= k < |classes| && p in classes[k].properties :: p
                     => Snapshot(classes[k]))
  }

  lemma ExecuteSnoc(classes: seq<ClassSnapshot>, i: nat, outcome: ClassSnapshot -> Result<ClassOutcome>)
    requires i < |classes|
    ensures ExecuteWith(classes[..i + 1], outcome) ==
              var prev := ExecuteWith(classes[..i], outcome);
              if prev.Err? then prev
              else
                var o := outcome(classes[i]);
                if o.Err? then Err(o.error)
                else Ok(Output(prev.value.diagnostics + o.value.diagnostics, prev.value.sources + Added(o.value)))
  {
    assert classes[..i + 1][..i] == classes[..i];
  }

  /** One more class that does not throw. */
  lemma ExecuteStep(classes: seq<ClassSnapshot>, i: nat, outcome: ClassSnapshot -> Result<ClassOutcome>,
                    done: Output, o: ClassOutcome)
    requires i < |classes| && ExecuteWith(classes[..i], outcome) == Ok(done) && outcome(classes[i]) == Ok(o)
    ensures ExecuteWith(classes[..i + 1], outcome) ==
              Ok(Output(done.diagnostics + o.diagnostics, done.sources + Added(o)))
  {
    ExecuteSnoc(classes, i, outcome);
  }

  lemma {:induction false} ExecuteErrSticky(classes: seq<ClassSnapshot>, i: nat, outcome: ClassSnapshot -> Result<ClassOutcome>)
    requires i <= |classes| && ExecuteWith(classes[..i], outcome).Err?
    ensures ExecuteWith(classes, outcome) == ExecuteWith(classes[..i], outcome)
    decreases |classes| - i
  {
    if i == |classes| {
      assert classes[..i] == classes;
    } else {
      ExecuteSnoc(classes, i, outcome);
      ExecuteErrSticky(classes, i + 1, outcome);
    }
  }

  /** `Execute`: every queued class in turn. */
  method Execute(classes: seq<ClassData>) returns (r: Result<Output>)
    ensures r == ExecuteWith(Snapshots(classes), Outcome)
  {
    ghost var snaps := Snapshots(classes);
    var diagnostics: seq<Diagnostic> := [];
    var sources: seq<Source> := [];
    var i := 0;
    while i < |classes|
      invariant 0 <= i <= |classes|
      invariant ExecuteWith(snaps[..i], Outcome) == Ok(Output(diagnostics, sources))
    {
      var o := ProcessClass(classes[i]);
      assert o == Outcome(snaps[i]);
      if o.Err? {
        ExecuteSnoc(snaps, i, Outcome);
        ExecuteErrSticky(snaps, i + 1, Outcome);
        return Err(o.error);
      }
      ExecuteStep(snaps, i, Outcome, Output(diagnostics, sources), o.value);
      ghost var next := ExecuteWith(snaps[..i + 1], Outcome);
      diagnostics := diagnostics + o.value.diagnostics;
      if o.value.source.Some? {
        sources := sources + [o.value.source.value];
      }
      assert next.Ok?;
      assert next.value.diagnostics == diagnostics;
      assert next.value.sources == sources;
      assert next == Ok(Output(diagnostics, sources));
      i := i + 1;
    }
    assert snaps[..i] == snaps;
    r := Ok(Output(diagnostics, sources));
  }

  // ---------------------------------------------------------------- file names

  /** The position of the first dash, or the length when there is none. */
  function FirstDash(s: string): nat {
    if s == [] || s[0] == '-' then 0 else 1 + FirstDash(s[1..])
  }

  lemma {:induction false} FirstDashAfter(a: string, b: string)
    requires '-' !in a
    ensures FirstDash(a + "-" + b) == |a|
  {
    if a == [] {
      assert a + "-" + b == "-" + b;
    } else {
      assert (a + "-" + b)[1..] == a[1..] + "-" + b;
      FirstDashAfter(a[1..], b);
    }
  }

  /** Two classes whose namespaces hold no dash get the same file name only
      when namespace and name agree. */
  lemma FileNamesDistinct(x: OwnerInfo, y: OwnerInfo)
    requires '-' !in x.namespace && '-' !in y.namespace
    requires FileName(x) == FileName(y)
    ensures x.namespace == y.namespace && x.name == y.name
  {
    var mx := x.namespace + "-" + x.name;
    var my := y.namespace + "-" + y.name;
    assert FileName(x) == "DepRos-" + mx + ".g.cs";
    assert FileName(y) == "DepRos-" + my + ".g.cs";
    assert mx == FileName(x)[7..|FileName(x)| - 5];
    assert my == FileName(y)[7..|FileName(y)| - 5];
    FirstDashAfter(x.namespace, x.name);
    FirstDashAfter(y.namespace, y.name);
    assert x.namespace == mx[..FirstDash(mx)];
    assert y.namespace == my[..FirstDash(my)];
    assert x.name == mx[FirstDash(mx) + 1..];
    assert y.name == my[FirstDash(my) + 1..];
  }
}
