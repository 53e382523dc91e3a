# DepRos in Dafny

DepRos is a C# source generator. It turns annotated declarations into dependency-property
boilerplate for WPF, WinUI/UWP or Avalonia:
- an auto-property marked `[DependencyProperty]`;
- a `defaultFor…` field marked `[AttachedProperty]`.

This project models the generator's deterministic core and proves what it promises:
- **Naming conventions** (`Decoration`). A prefix and suffix pair with `ApplyTo` and `Strip`. It includes the four default conventions, the decoding of a decoration attribute's arguments, and the nearest-enclosing-scope lookup.
- **Attribute-name matching** (`AttributeHelper`, `IsSupported`). Completes a name with `Attribute` when it lacks the suffix, then compares ordinally. Also covered: the marker attributes' constructor defaults and `AttachedPropertyInfo`'s argument dispatch.
- **Binding modes**. The name-based conversion of the portable enum into each toolkit's enum.
- **Property records** (`PropertyData`):
  - the syntactic classifiers;
  - the attribute scan of the shared constructor;
  - the changed-handler shape classifier;
  - the `Mark*` updates;
  - the per-toolkit emitters, as functions that produce the written lines.
- **Owner aggregation** (`ClassData`):
  - toolkit detection from the base-type chain;
  - the four naming conventions in force;
  - `AnalyzeProperties`, which walks the members once, merges candidates by name and then applies four fixed passes;
  - the class frame around the generated code.
- **Validation and emission** (`DepRosGenerator.Execute`, the syntax receiver):
  - the nine per-property checks and the two class checks;
  - the all-or-nothing gate;
  - the generated file's name.

Roslyn's syntax and semantic queries are inputs. Attributes, arguments with their constant values, members, base types and scopes are plain datatypes (`Syntax`). A location is an opaque token, and `NoLocation` stands for `Location.None`. Exceptions become `Err` values of a `Result` (`Wrappers`).

Each object the source updates in place is a `class`:
- `PropertyData`, whose `Mark*` methods modify it;
- the receiver's queue;
- `AttachedPropertyInfo`.

Its methods are proved against value-level specification functions (`Record()`, `Analyze`, `Outcome`, `ExecuteWith`). Loops in the source are `while` loops with invariants. Pure code is functions and lemmas.

Behaviour of the code worth noting:
- **Passes.** `AnalyzeProperties` applies four passes: default value, coerce, validate, changed handler.
- **DR0012.** No diagnostic reports an unsupported changed-handler prototype. DR0012 is declared but never reported.
- **Class-level attached properties** produce no records. The records they build are discarded (`ClassData.cs:116-118`), and the lookup throws before any is built (Finding 2).
- **Unsupported handler.** A changed handler of unsupported shape is still recorded at `Location.None`.

## Model

| member | source | states |
|---|---|---|
| Decorations.NewDecoration | DepRosLib/Decoration.cs:13-18 | Succeeds iff both affixes are non-null and not both empty; keeps them as given; a null prefix or suffix throws ArgumentNull for that parameter |
| Decorations.ApplyTo | DepRosLib/Decoration.cs:26-28 | The decorated name matches the decoration (non-empty, starts with the prefix, ends with the suffix) and is exactly as long as prefix + name + suffix |
| Decorations.StripAsWritten | DepRosLib/Decoration.cs:20-24 | As written: throws ArgumentOutOfRange exactly when the name matches but is shorter than prefix and suffix together |
| Decorations.StripAsWrittenThrowsOnOverlap | DepRosLib/Decoration.cs:20-24 | Prefix "ab", suffix "ba", name "aba": `Strip` as written throws |
| Decorations.Strip | DepRosLib/Decoration.cs:20-24 | Corrected: a result r satisfies ApplyTo(r) == s; no result means no name decorates to s |
| Decorations.StripAgreesWithAsWritten | DepRosLib/Decoration.cs:20-24 | Wherever the written `Strip` returns, the corrected one returns the same |
| Decorations.StripApplyRoundTrip | DepRosLib/Decoration.cs:20-28 | Strip(ApplyTo(n)) == n for every n, including the empty name |
| DecorationAttributes.Construct | DepRosLib/DecorationAttributes.cs:12-18 | The base constructor succeeds iff the decoration can be built, and Prefix/Suffix are the given affixes; otherwise it throws the decoration's exception |
| DecorationAttributes.DefaultEqualsParameterless | DepRosLib/DecorationAttributes.cs:24-28 | The parameterless constructor never throws and yields the static `Default` (defaultFor/"", Coerce/"", Validate/"", On/Changed; also lines 36-40, 48-52, 60-64) |
| DecorationAttributes.PrefixOnlyKeepsDefaultSuffix | DepRosLib/DecorationAttributes.cs:29 | The one-argument constructor keeps the default suffix; it refuses an empty prefix exactly for the conventions whose default suffix is empty |
| DecorationAttributes.AttributeTypeNameSuffix | DepRosLib/Decoration.cs:97 | Every decoration attribute's type name ends in `Attribute` |
| DecorationAttributes.AttributeTypeNamesWellFormed | DepRosLib/Decoration.cs:97 | The four attribute type names end in `Attribute` and are pairwise distinct |
| DecorationLookup.DecodeArgumentList | DepRosLib/Decoration.cs:106-132 | The argument loop equals its reference reading `DecodeArguments` |
| DecorationLookup.FailureSticks | DepRosLib/Decoration.cs:109-112 | Once a prefix of the arguments throws "not a string", the whole list throws the same |
| DecorationLookup.DecodeIsLastWriter | DepRosLib/Decoration.cs:106-131 | Decoding throws iff some argument yields no string; otherwise the prefix and suffix are the last ones written, named arguments to their slot, the first two positional ones to prefix then suffix, later ones nowhere |
| DecorationLookup.ColonNamesIgnoreCase | DepRosLib/Decoration.cs:54-56 | `prefix: "x"` decodes to the Prefix slot (case-insensitive parse) |
| DecorationLookup.EqualsNamesAreCaseSensitive | DepRosLib/Decoration.cs:57-59 | `prefix = "x"` decodes to no string and makes the loop throw InvalidOperation (case-sensitive parse) |
| DecorationLookup.DecorationOf | DepRosLib/Decoration.cs:106-142 | An attribute without an argument list yields the convention's default decoration |
| DecorationLookup.DecorationOfArguments | DepRosLib/Decoration.cs:134-142 | With arguments all strings: the decoration of the last-written affixes, defaults for the unwritten ones, refused when both end up empty |
| DecorationLookup.ThirdPositionalIgnored | DepRosLib/Decoration.cs:123-129 | Three positional strings a, b, x give the decoration (a, b) |
| DecorationLookup.FindInSpecNone | DepRosLib/Decoration.cs:99-145 | Nothing is found iff no attribute's normalised name is the attribute type name |
| DecorationLookup.FindInSpecFirst | DepRosLib/Decoration.cs:99-143 | Otherwise the first matching attribute decides, by its decoration or its exception |
| DecorationLookup.FindInSpecConcat | DepRosLib/Decoration.cs:74-83 | Searching two lists in turn is searching their concatenation |
| DecorationLookup.DecorationFromAttribute | DepRosLib/Decoration.cs:106-142 | Decoding, default filling and construction for a matched attribute equal `DecorationOf` |
| DecorationLookup.FindIn | DepRosLib/Decoration.cs:93-146 | The loop over one attribute list equals `FindInSpec` |
| DecorationLookup.FindInListsStep | DepRosLib/Decoration.cs:77-82 | List i decides unless it finds nothing, in which case the later lists do |
| DecorationLookup.FindInLists | DepRosLib/Decoration.cs:74-83 | The loop over attribute lists equals `FindInSpec` on their concatenation |
| DecorationLookup.ChainStep | DepRosLib/Decoration.cs:152-165 | One scope of the walk: a found decoration or exception decides, otherwise the walk moves outwards |
| DecorationLookup.SearchScopeOf | DepRosLib/Decoration.cs:153-162 | A member or compilation-unit scope is searched through its attribute lists; any other node finds nothing |
| DecorationLookup.GetDecorationFrom | DepRosLib/Decoration.cs:148-170 | The outward walk equals `DecorationFromChain`: the first scope that finds the attribute decides, else the default |
| DecorationLookup.UnmarkedScopesPassedOver | DepRosLib/Decoration.cs:152-169 | Scopes without the attribute are skipped; with none anywhere the default decoration is used |
| DecorationLookup.NearestScopeWins | DepRosLib/Decoration.cs:152-165 | A scope carrying the attribute decides whatever the outer scopes hold |
| AttributeHelper.NormaliseAttributeNameSpec | DepRosLib/AttributeHelper.cs:14-16 | The normalised name ends in `Attribute`; a name that has the suffix is kept, any other is extended by exactly the suffix |
| AttributeHelper.NormaliseIdempotent | DepRosLib/AttributeHelper.cs:14-16 | Normalising twice is normalising once |
| AttributeHelper.NormaliseMatchesExactly | DepRosLib/AttributeHelper.cs:14-17 | A written name matches `TAttribute` iff it is `TAttribute` or `T` |
| AttributeHelper.QualifiedNameNeverMatchesShort | DepRosLib/AttributeHelper.cs:10-17 | A name written with a qualifier never matches an unqualified expected name |
| AttributeHelper.FindInList | DepRosLib/AttributeHelper.cs:13-19 | The inner loop stops at the first matching attribute of a list, or at its end when none matches |
| AttributeHelper.Find | DepRosLib/AttributeHelper.cs:9-21 | Null iff no attribute matches; otherwise the first match in list-then-attribute order (same body at lines 42-55) |
| AttributeHelper.MatchingMembers | DepRosLib/AttributeHelper.cs:32-39 | The matches are exactly the attributes that match, never more than the input |
| AttributeHelper.MatchingConcat | DepRosLib/AttributeHelper.cs:32-39 | Matches keep declaration order across lists |
| AttributeHelper.FindAllInUnit | DepRosLib/AttributeHelper.cs:57-68 | Yields every matching attribute in declaration order |
| AttributeHelper.FindAll | DepRosLib/AttributeHelper.cs:27-40 | Throws ArgumentException iff the name does not end in `Attribute`; otherwise every match in declaration order |
| MainAttributes.TwoSpellings | DepRosLib/MainAttributes.cs:21-23 | For a short name without the suffix, exactly the short and the suffixed spelling normalise to the suffixed name |
| MainAttributes.DependencyPropertySpellings | DepRosLib/MainAttributes.cs:18-24 | `DependencyProperty` and `DependencyPropertyAttribute` are exactly the spellings of the first supported name |
| MainAttributes.AttachedPropertySpellings | DepRosLib/MainAttributes.cs:18-24 | `AttachedProperty` and `AttachedPropertyAttribute` are exactly the spellings of the second |
| MainAttributes.IsSupportedSpellings | DepRosLib/MainAttributes.cs:18-24 | `IsSupported` holds for exactly four spellings |
| MainAttributes.IsSupportedRefusesEmpty | DepRosLib/MainAttributes.cs:19-20 | Null and empty names are not supported |
| MainAttributes.ConstructorDefaults | DepRosLib/MainAttributes.cs:43-62 | Defaults are not inherited, OneWay, not read-only; the BindingMode-only overloads equal the full ones with only the mode given |
| MainAttributes.NewWithAttachedPropertyAttribute | DepRosLib/MainAttributes.cs:122-126 | Throws ArgumentNull("name") iff the name is null; otherwise stores every argument as given |
| MainAttributes.ArgNamesForgiveFirstLetterOnly | DepRosLib/MainAttributes.cs:80-105 | `name`/`Name` set Name, `readOnly` sets ReadOnly, while `NAME` and the empty name set nothing |
| MainAttributes.AttachedPropertyInfo.constructor | DepRosLib/MainAttributes.cs:77-116 | The argument loop has an empty body, so every property keeps its default and the record is never valid |
| MainAttributes.AttachedPropertyInfo.ParseAndSetArg | DepRosLib/MainAttributes.cs:80-105 | Returns false iff the capitalised name is none of the five; sets exactly the named property; null reads as false for Inherits/ReadOnly, a non-bool throws InvalidCast |
| MainAttributes.ParsedNameAndTypeMakeValid | DepRosLib/MainAttributes.cs:75 | Setting a non-empty name and a type through `parseAndSetArg` makes `IsValid` true |
| BindingModes.ToLocalTotalAndValues | DepRosLib/BindingMode.cs:47-50 | The conversion never throws and lands on Avalonia 1/2/3, WPF 1/0/2 and WinUI 1/3/2 for OneWay/TwoWay/OneTime |
| BindingModes.ToLocalGoesByName | DepRosLib/BindingMode.cs:47-50 | The numeric value is not kept: TwoWay (2) becomes WPF 0 and WinUI 3 |
| BindingModes.ToLocalInjective | DepRosLib/BindingMode.cs:13-50 | Distinct modes stay distinct; `Default` and `OneWayToSource` are never produced |
| Properties.PublicReadableIffOpenGetter | DepRosLib/PropertyData.cs:57-79 | A public, non-private property is readable iff it is expression-bodied or has a `get` without a restricting modifier |
| Properties.GetAccessModifiers | DepRosLib/PropertyData.cs:81-94 | One of six texts; empty iff no access keyword is written, otherwise ending in a space |
| Properties.AccessPrecedence | DepRosLib/PropertyData.cs:81-94 | The text kept is the most significant keyword present: public > private > protected (protected internal when internal is also written) > internal |
| Properties.KeywordsTextShape | DepRosLib/PropertyData.cs:96-107 | The modifier text is empty iff no listed keyword is present, else it ends in a space |
| Properties.GetMethodModifiers | DepRosLib/PropertyData.cs:96-107 | Appends `new `, `override `, `sealed `, `virtual ` in that order for those present; empty iff none is |
| Properties.MarkersMember | DepRosLib/PropertyData.cs:166-167 | Every usage whose name matches the marker type is scanned |
| Properties.ScanFromMeaning | DepRosLib/PropertyData.cs:166-179 | The scan throws iff some marker usage has an empty argument list; otherwise HasAttribute iff one marker, HasMultipleAttributes iff two or more, Inherits iff some marker's first argument is the constant true |
| Properties.ScanFromConcat | DepRosLib/PropertyData.cs:166-179 | Scanning two stretches in turn is scanning their concatenation; a failure stays |
| Properties.ScanList | DepRosLib/PropertyData.cs:167-179 | The inner loop over one attribute list equals `ScanFrom` |
| Properties.ScanMarkerAttributes | DepRosLib/PropertyData.cs:166-179 | The nested loop equals `ScanFrom` over all lists and has the meaning `ScanFromMeaning` states |
| Properties.TrimEndSpec | DepRosLib/PropertyData.cs:333 | `TrimEnd('?')` removes a trailing run of `?` and nothing else |
| Properties.FirstSetterSpec | DepRosLib/PropertyData.cs:195 | The setter is found iff some accessor is a `set`, and it is the first one |
| Properties.PropertyRecordShape | DepRosLib/PropertyData.cs:189-206 | A property record has the declared name, is not attached, is read-only iff no `set` accessor exists, has no fragments, spaced modifier texts, and multiple-markers implies a marker |
| Properties.FieldRecordShape | DepRosLib/PropertyData.cs:215-222 | A field record is attached, writable, has no fragments, spaced modifier texts, and when the declarator strips its name decorates back to the declarator |
| Properties.ClassifyHandlerSpec | DepRosLib/PropertyData.cs:119-147 | A recognised shape declares as many parameters as it says; only EventArgs takes a foreign single type; at most two parameters of the property's type are always recognised; none iff more than two or a mismatched pair |
| Properties.PropertyData.ForProperty | DepRosLib/PropertyData.cs:189-206 | The property constructor fails iff the attribute scan does; otherwise a fresh object holding `PropertyRecordOf` |
| Properties.PropertyData.ForField | DepRosLib/PropertyData.cs:215-222 | The field constructor fails iff the scan does; otherwise a fresh object holding `FieldRecordOf` |
| Properties.PropertyData.FindPropertyChangedHandlerPrototype | DepRosLib/PropertyData.cs:119-147 | Returns true iff the method's shape is recognised, then records shape and location; otherwise changes nothing |
| Properties.PropertyData.MarkHavingChangedHandler | DepRosLib/PropertyData.cs:149-155 | Records the shape; the location is `Location.None` for Unsupported, so the record still has a handler |
| Properties.PropertyData.MarkHavingDuplicate | DepRosLib/PropertyData.cs:350 | Sets only HasMultipleAttributes |
| Properties.PropertyData.MarkHavingDefaultValue | DepRosLib/PropertyData.cs:351 | Sets only the default-value location |
| Properties.PropertyData.MarkHavingWriteableDefaultValue | DepRosLib/PropertyData.cs:352 | Sets only the writeable flag |
| Properties.PropertyData.MarkHavingCoerceCallback | DepRosLib/PropertyData.cs:353 | Sets only the coerce location |
| Properties.PropertyData.MarkHavingValidationCallback | DepRosLib/PropertyData.cs:354 | Sets only the validate location |
| PropertyEmission.ChangedHandlerMatchesPrototype | DepRosLib/PropertyData.cs:580-587 | Corrected: the lambda passes exactly as many arguments as the shape's parameter count; "null" iff the shape is Unsupported |
| PropertyEmission.EmptyHandlerGetsAnArgument | DepRosLib/PropertyData.cs:582-583 | As written, a parameterless handler is called with one argument, the same text as for NewValueOnly |
| PropertyEmission.ChangedHandlerAgreesAsWritten | DepRosLib/PropertyData.cs:580-587 | The corrected and written callbacks agree iff the shape is not Empty |
| PropertyEmission.ReadOnlyOmitsSetter | DepRosLib/PropertyData.cs:543-575 | A read-only property gets the writable one's accessor lines minus the setter |
| PropertyEmission.AvaloniaIgnoresHandlerAndValidate | DepRosLib/PropertyData.cs:371-428 | The Avalonia output does not depend on the validate callback or the changed handler |
| PropertyEmission.AvaloniaReadOnlyKeepsRegistration | DepRosLib/PropertyData.cs:373-391 | On Avalonia, read-only does not change the registration |
| PropertyEmission.MetadataPrecedence | DepRosLib/PropertyData.cs:530-535 | FrameworkPropertyMetadata iff WPF framework element; UIPropertyMetadata iff WPF UI element but not framework element; PropertyMetadata otherwise |
| PropertyEmission.MsCoerceThrowsAsWritten | DepRosLib/PropertyData.cs:501-515 | As written, a UWP or WinUI property with a coerce callback throws InvalidOperation |
| PropertyEmission.MsCallbacksOnlyOnWpf | DepRosLib/PropertyData.cs:501-537 | Corrected: outside WPF the coerce and validate callbacks leave no trace in the output |
| PropertyEmission.EmitMsAgreesAsWritten | DepRosLib/PropertyData.cs:430-578 | Wherever the written emitter succeeds (and the handler is not parameterless) the corrected one writes the same lines |
| PropertyEmission.MsReadOnlyKey | DepRosLib/PropertyData.cs:524-541 | A read-only WPF property is registered through a private key, then exposes the public handle; any other property registers the public handle directly |
| PropertyEmission.MsReadOnlyKeepsRegistration | DepRosLib/PropertyData.cs:524-541 | Outside WPF read-only does not change the registration |
| PropertyEmission.GenerateFailsOnlyOn | DepRosLib/PropertyData.cs:356-369 | Generation fails iff the toolkit is unknown (NotSupported) or a UWP/WinUI property inherits |
| PropertyEmission.GenerateDispatch | DepRosLib/PropertyData.cs:356-369 | Avalonia goes to its emitter; WPF, WinUI and UWP to the shared one with System.Windows, Microsoft.UI.Xaml and Windows.UI.Xaml |
| Classes.LineageSnoc | DepRosLib/ClassData.cs:45-68 | Visiting one more base sets the flags its full name names and overwrites the toolkit when it is a root |
| Classes.DetectLineage | DepRosLib/ClassData.cs:44-68 | The base-type loop equals `LineageOf(Visited(bases))` |
| Classes.VisitedSpec | DepRosLib/ClassData.cs:45-49 | The walk visits exactly the leading bases that have a namespace, stopping at the first that has none |
| Classes.NoRootUnknown | DepRosLib/ClassData.cs:55-66 | The toolkit stays Unknown iff no visited name is a toolkit root |
| Classes.LastRootDecides | DepRosLib/ClassData.cs:55-66 | A root with no root after it decides the toolkit |
| Classes.OutermostRootWins | DepRosLib/ClassData.cs:44-68 | Unknown iff no root; otherwise the outermost root's toolkit |
| Classes.UwpNeverDetected | DepRosLib/ClassData.cs:44-68 | No base chain yields UWP |
| Classes.OwnerNames | DepRosLib/ClassData.cs:39-41 | The full name is the name, prefixed by namespace and dot when the namespace is non-empty |
| Classes.OwnerDecorations | DepRosLib/ClassData.cs:74-77 | Construction throws iff some convention lookup throws; otherwise each convention holds its looked-up decoration |
| Classes.UndecoratedClassUsesDefaults | DepRosLib/ClassData.cs:74-77 | With no decoration attribute on any enclosing scope, all four conventions are the defaults |
| Classes.OwnerToolkit | DepRosLib/ClassData.cs:44-68 | The owner's toolkit is the outermost root's, never UWP |
| Classes.ClassOfOwned | DepRosLib/ClassData.cs:34-80 | Every record of a constructed class has that class as owner, and the class is not UWP |
| Classes.NewClassData | DepRosLib/ClassData.cs:34-80 | The constructor equals `ClassOf`: same exception, or fresh, distinct property objects holding its records |
| Classes.EmitAllErrSticky | DepRosLib/ClassData.cs:84-85 | Once a property's code throws, the rest does not change the result |
| Classes.EmitAllFirstFailure | DepRosLib/ClassData.cs:82-87 | The file is written iff every property's code is; otherwise the first failure is the result |
| Classes.EmitAllConcat | DepRosLib/ClassData.cs:84-85 | Each property's code appears whole and in order |
| Classes.GenerateSupplementalCode | DepRosLib/ClassData.cs:82-87 | Equals `SupplementalCode` over the current records with `GenerateDependencyProperty` |
| Classes.WriteFrame | DepRosLib/ClassData.cs:82-105 | The loop writes the frame's opening lines, each property's code, and the closing lines |
| Classes.ClosingCount | DepRosLib/ClassData.cs:103 | The closing line shuts two braces |
| Classes.HeaderOpensOne | DepRosLib/ClassData.cs:93-99 | The namespace header and the class header each open exactly one brace |
| Classes.FrameBalancedIffNamespace | DepRosLib/ClassData.cs:89-105 | Opening and closing braces balance iff the namespace text is non-empty |
| Classes.SupplementalCodeFrame | DepRosLib/ClassData.cs:82-105 | A file is written iff every property's code is, and then starts with the opening lines and ends with the closing lines |
| Analysis.WithAttachedPassAsWritten | DepRosLib/ClassData.cs:115-118 | As written, the class-level lookup throws ArgumentException for every declaration |
| Analysis.ClassifyMethodPriority | DepRosLib/ClassData.cs:154-164 | A method is queued once, under coerce, else validate, else changed handler, by the first convention that strips its name |
| Analysis.DedupIndex | DepRosLib/ClassData.cs:122-150 | The merge table is well formed and indexes exactly the candidate names |
| Analysis.DedupFirstWins | DepRosLib/ClassData.cs:124-130 | The record kept for a name is its first candidate, marked duplicated iff the name appears more than once |
| Analysis.DedupOrder | DepRosLib/ClassData.cs:124-130 | Records are kept in the order their names first appear |
| Analysis.UniqueNames | DepRosLib/ClassData.cs:125-129 | Records are unique by name |
| Analysis.PassPointwise | DepRosLib/ClassData.cs:168-187 | A pass keeps the index and updates each record by the fragments of its own name, in order |
| Analysis.PassConcat | DepRosLib/ClassData.cs:168-187 | Passes run in sequence equal one pass over the joined queues |
| Analysis.AttachOnlyFragmentFields | DepRosLib/ClassData.cs:168-187 | One fragment changes only the fragment fields |
| Analysis.ApplyAllKeepsCore | DepRosLib/ClassData.cs:168-187 | Attaching fragments changes only the fragment fields |
| Analysis.FragmentEffect | DepRosLib/ClassData.cs:168-187 | What one fragment of each kind sets |
| Analysis.ApplyAllLastWins | DepRosLib/ClassData.cs:168-183 | Each location is the last one queued for the name by its convention, or unchanged |
| Analysis.ApplyAllLastHandler | DepRosLib/ClassData.cs:185-187 | The handler location and shape come from the last changed-handler method queued for the name |
| Analysis.ApplyAllWriteable | DepRosLib/ClassData.cs:168-175 | The default value is writeable iff it already was or some queued field of the name is neither const nor readonly |
| Analysis.WalkMembersShape | DepRosLib/ClassData.cs:120-166 | The walk gathers only attributed, fragment-free candidates and queues fragments by kind |
| Analysis.WalkMembersOwned | DepRosLib/ClassData.cs:120-166 | The walk gathers only records of the class walked |
| Analysis.AnalyzeIsOnePass | DepRosLib/ClassData.cs:168-187 | The four passes equal one pass over the queues joined in order |
| Analysis.AnalyzeFailsOnlyOnScan | DepRosLib/ClassData.cs:107-192 | The analysis fails iff the walk does, and then with ArgumentOutOfRange |
| Analysis.AnalyzeRecords | DepRosLib/ClassData.cs:107-192 | The records are the merged candidates after the passes, one per kept name |
| Analysis.AnalyzeMerges | DepRosLib/ClassData.cs:122-150 | Names are unique and every attributed candidate's name has a record |
| Analysis.AnalyzeKeepsFirst | DepRosLib/ClassData.cs:124-149 | Each record is its name's first candidate up to the fragment fields, in first-appearance order |
| Analysis.AnalyzeOwned | DepRosLib/ClassData.cs:107-192 | Every record belongs to the class analysed |
| Analysis.AnalyzeAttaches | DepRosLib/ClassData.cs:168-187 | Each record holds the last default-value field, coerce and validate method queued for its name, and the last handler's shape and location |
| Analysis.MarkDuplicate | DepRosLib/ClassData.cs:125-126 | Marks the object held under a known name as duplicated and keeps the mirror |
| Analysis.Keep | DepRosLib/ClassData.cs:124-130 | Adds a new name's object to the dictionary and the list, or marks the existing one |
| Analysis.Attach | DepRosLib/ClassData.cs:169-187 | One `Mark*` step performs `ApplyFragment` on the object |
| Analysis.AttachNamed | DepRosLib/ClassData.cs:168-187 | The body of a pass's loop performs `PassFragment` on the objects |
| Analysis.RunPass | DepRosLib/ClassData.cs:168-187 | A pass's loop leaves the objects mirroring `Pass` |
| Analysis.VisitDeclarator | DepRosLib/ClassData.cs:135-151 | One declarator: skipped unless it strips to a non-empty name, then queued and, when attributed, merged |
| Analysis.WalkField | DepRosLib/ClassData.cs:134-152 | The declarator loop of a field equals `WalkDeclarators` |
| Analysis.VisitMember | DepRosLib/ClassData.cs:120-165 | One member step equals `StepMember` on the objects and queues |
| Analysis.AnalyzeProperties | DepRosLib/ClassData.cs:107-192 | Fails iff `Analyze` fails; otherwise fresh, distinct objects holding `Analyze`'s records |
| Generator.Position | DepRosLib/DepRosGenerator.cs:43-78 | The position of each check in the property loop |
| Generator.CheckedSound | DepRosLib/DepRosGenerator.cs:43-78 | Only checks that ran and fired are reported |
| Generator.CheckedComplete | DepRosLib/DepRosGenerator.cs:43-78 | Every check that ran and fired is reported |
| Generator.CheckedOrdered | DepRosLib/DepRosGenerator.cs:43-78 | Diagnostics appear in check order |
| Generator.PropertyChecksAllRun | DepRosLib/DepRosGenerator.cs:43-78 | Each code is reported once iff its condition holds |
| Generator.ErroneousIff | DepRosLib/DepRosGenerator.cs:43-78 | A property is erroneous iff one of its diagnostics is an error; the last four only warn |
| Generator.CheckProperty | DepRosLib/DepRosGenerator.cs:43-78 | The checks report `PropertyDiagnostics` and set the flag iff the property is erroneous |
| Generator.CheckErrors | DepRosLib/DepRosGenerator.cs:43-66 | The five error checks in order |
| Generator.CheckWarnings | DepRosLib/DepRosGenerator.cs:68-78 | The four warning checks in order, after the errors |
| Generator.ValidCount | DepRosLib/DepRosGenerator.cs:80-82 | The valid count is at most the number of properties |
| Generator.ValidCountIsCleanPrefix | DepRosLib/DepRosGenerator.cs:41-83 | The valid properties are the longest error-free prefix, because the flag is never lowered |
| Generator.ValidCountShort | DepRosLib/DepRosGenerator.cs:41-83 | Fewer than all are valid iff some property erred |
| Generator.ValidateProperties | DepRosLib/DepRosGenerator.cs:40-83 | The property loop's diagnostics, valid list and flag are as specified |
| Generator.ValidateRecords | DepRosLib/DepRosGenerator.cs:40-83 | The same loop over records |
| Generator.OwnerErroneousIff | DepRosLib/DepRosGenerator.cs:85-93 | DR0002 iff not a partial top-level class; DR0004 iff the toolkit is unknown; both errors |
| Generator.CheckOwner | DepRosLib/DepRosGenerator.cs:85-93 | The class checks report `OwnerDiagnostics` and set the flag iff the class is erroneous |
| Generator.AdmittedIff | DepRosLib/DepRosGenerator.cs:95-96 | A class gets a file iff it has properties, none erroneous, and the class passes its checks |
| Generator.OutcomeWithEmits | DepRosLib/DepRosGenerator.cs:95-112 | With every record emitting, the outcome holds all diagnostics and a file iff admitted |
| Generator.OutcomeWithFails | DepRosLib/DepRosGenerator.cs:98-100 | An admitted class with one failing record makes `Execute` throw |
| Generator.AdmittedRecordsEmit | DepRosLib/DepRosGenerator.cs:95-100 | Every record of an admitted class has code |
| Generator.AdmittedClassEmits | DepRosLib/DepRosGenerator.cs:95-112 | The gate is enough: an admitted class gets its file, named `DepRos-{namespace}-{name}.g.cs`, holding its code |
| Generator.WinUICoerceAdmittedAsWrittenFails | DepRosLib/DepRosGenerator.cs:71-72 | As written, a WinUI coerce callback only warns DR0010 and the class is admitted, yet emission throws; corrected, the file is written |
| Generator.ProcessClass | DepRosLib/DepRosGenerator.cs:39-115 | One class's checks, gate and file equal `Outcome` |
| Generator.ExecuteWithAddsSources | DepRosLib/DepRosGenerator.cs:39-115 | With no class throwing, one file per class that has one |
| Generator.ExecuteAddsAdmitted | DepRosLib/DepRosGenerator.cs:39-115 | With owned records, `Execute` never throws and adds one file per admitted class (repeated file names not modelled, see Left out) |
| Generator.SourcesAreAdmitted | DepRosLib/DepRosGenerator.cs:95-112 | The classes with a file are the admitted ones |
| Generator.ExecuteErrSticky | DepRosLib/DepRosGenerator.cs:39-115 | A class that throws ends `Execute` |
| Generator.Execute | DepRosLib/DepRosGenerator.cs:35-116 | The loop over queued classes equals `ExecuteWith` over their snapshots |
| Generator.FileNamesDistinct | DepRosLib/DepRosGenerator.cs:104 | With dash-free namespaces, equal file names mean equal namespace and name |
| Receiver.VisitQueuesOne | DepRosLib/DepRosSyntaxContextReciever.cs:11-17 | A visit queues at most one class, exactly for a type declaration with properties, and it is queueable |
| Receiver.ReceivedAreQueueable | DepRosLib/DepRosSyntaxContextReciever.cs:9-17 | The queue holds at most one class per node, each with properties it owns, none UWP |
| Receiver.ReceivedNeverFail | DepRosLib/DepRosSyntaxContextReciever.cs:9-17 | `Execute` never throws on the queue and adds one file per admitted class (repeated file names not modelled, see Left out) |
| Receiver.SyntaxContextReceiver.constructor | DepRosLib/DepRosSyntaxContextReciever.cs:9 | The queue starts empty |
| Receiver.SyntaxContextReceiver.OnVisitSyntaxNode | DepRosLib/DepRosSyntaxContextReciever.cs:11-17 | Appends `VisitSpec`'s class (fresh objects) or propagates the constructor's exception, leaving the queue |

## Left out

- Culture-sensitive comparison: `StartsWith`/`EndsWith(string)` in C# use the current culture; the model compares ordinally.
- The class-level attached-property constructor (`PropertyData.cs:230-241`) is not modelled. The lookup that would feed it throws first (Finding 2), and its records are discarded even when built. The source's argument loop in `AttachedPropertyInfo` has an empty body (`MainAttributes.cs:77-116`), so the constructor sets nothing.
- I/O: the `StreamWriter`, the memory stream, UTF-8 encoding, `AddSource` and the DEBUG-only file copy under `OutputDirectory` are not modelled. Generated code is a sequence of lines.
- An exception raised while a class's file is being written loses that file, and `Execute` stops. Partial output that reached the stream is not modelled.
- Roslyn is not modelled. Parsing, symbols, `GetConstantValue`, `GetTypeInfo`, `Location` and the driver that calls `Initialize`, `OnVisitSyntaxNode` and `Execute` are inputs or opaque values. `Receiver.ReceiveAll` states what the driver's visits add up to; the driver's loop itself is Roslyn's.
- `usings` and namespace texts are opaque strings. Roslyn prints the global namespace as `<global namespace>`, so the model does not assume an empty namespace for it.
- `Analysis.AnalyzeProperties`: `ClassData.cs:187` calls `MarkHavingChangedHandler` with one argument, which no overload takes. The model passes the shape through a `prototypeOf` parameter instead of guessing the intended call. `FindPropertyChangedHandlerPrototype` is modelled but never called by the source.
- DR0012 (unsupported changed-handler prototype) is declared in `Diagnostics.cs` but no code reports it, so the model reports it nowhere.
- `Generator.CheckProperty`: the nine checks are split into `CheckErrors` and `CheckWarnings`, appending in the same order. Validation reads the toolkit and framework-element flag from the class data while emission reads them from each record's owner. The two are tied by `Analysis.OwnedBy`, which the constructor guarantees.
- `Properties.ScanMarkerAttributes`: flags set before a usage whose `Arguments[0]` throws are not observable, since the constructor fails. Only the exception is modelled.
- `BindingMode` values on attributes are modelled by constructor defaults only. The generated code never passes a binding mode.

- Generator.ExecuteAddsAdmitted, Receiver.ReceivedNeverFail: "never throws" holds for the model, which does not model `AddSource` rejecting a repeated hint name. Two partial declarations of one class are queued as two classes with the same `DepRos-{namespace}-{name}.g.cs` name. So are `Foo` and `Foo<T>`, because the name drops the arity. In the source the second `AddSource` then throws.
- Analysis.ClassifyMethod, Analysis.StepDeclarator, Properties.FieldRecordOf: these use the corrected `Decorations.Strip` (Finding 1). A member name that overlaps a custom convention's affixes is skipped. The source throws ArgumentOutOfRange out of the `ClassData` constructor instead. So the "fails iff" contracts of Analysis.AnalyzeFailsOnlyOnScan, Analysis.AnalyzeProperties and Classes.NewClassData describe the corrected program.
- Text.ToUpperInvariant, Text.EqualsIgnoreCase: only ASCII letters are mapped. .NET's invariant upper-casing also maps non-ASCII letters, which affects argument-name dispatch in `AttachedPropertyInfo` and named decoration arguments.

## Findings

| source | as written | input that shows it | evidently intended | confidence | as-written member | corrected member |
|---|---|---|---|---|---|---|
| DepRosLib/Decoration.cs:20-24 | `Strip` computes `s.Length - (Prefix.Length + Suffix.Length)` after checking only that `s` starts with the prefix and ends with the suffix; when the affixes overlap inside `s` the length is negative and `Substring` throws | prefix "ab", suffix "ba", name "aba" | no match (null) when the name is shorter than both affixes | not executed | Decorations.StripAsWritten, Decorations.StripAsWrittenThrowsOnOverlap | Decorations.Strip, Decorations.StripApplyRoundTrip |
| DepRosLib/ClassData.cs:115-118 | The class-level lookup passes the generic type definition's metadata name, WithAttachedPropertyAttribute followed by a backquote and the arity 1, to FindAll(string), whose guard throws for any name not ending in "Attribute"; the foreach starts the iterator, so every type declaration throws | any type declaration | look the attribute up by a name that ends in Attribute; its records are discarded anyway, so the pass adds nothing | not executed | Analysis.WithAttachedPassAsWritten | Analysis.AnalyzeProperties |
| DepRosLib/PropertyData.cs:509-511 | A WinUI property with a coerce callback passes validation (DR0010 is only a warning, `DepRosGenerator.cs:71-72`) but the emitter throws InvalidOperation, so `Execute` fails | WinUI class, partial, top-level, one auto property with a `Coerce…` method | ignore the coerce callback, as the warning says | not executed | PropertyEmission.MsCoerceThrowsAsWritten, Generator.WinUICoerceAdmittedAsWrittenFails | PropertyEmission.MsCallbacksOnlyOnWpf, Generator.AdmittedClassEmits |
| DepRosLib/PropertyData.cs:582 | The parameterless handler shape gets the same lambda as the new-value shape, so `OnXChanged()` is called with one argument | a handler `void OnValueChanged()` | call the handler with no argument | not executed | PropertyEmission.EmptyHandlerGetsAnArgument | PropertyEmission.ChangedHandlerMatchesPrototype |
