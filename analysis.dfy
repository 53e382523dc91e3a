/** How a class's members become its property records (`AnalyzeProperties` in
    ClassData.cs): one walk over the members collects the attributed candidate
    records and queues the default-value fields and callback methods by the
    property name they resolve to; the candidates are then merged by name, and
    four passes attach the queued fragments to the records they name. */
module Analysis {
  import opened Wrappers
  import opened Text
  import opened Syntax
  import opened AttributeHelper
  import opened Decorations
  import opened DecorationAttributes
  import opened Owners
  import opened Properties

  /** A queued fragment: a default-value field or a callback method, with the
      property name it resolves to. */
  datatype Fragment =
    | DefaultValueFragment(name: string, fieldDecl: FieldDecl)
    | CoerceFragment(name: string, methodDecl: MethodDecl)
    | ValidateFragment(name: string, methodDecl: MethodDecl)
    | ChangedFragment(name: string, methodDecl: MethodDecl)

  /** The four queues, each in member order. */
  datatype Queues = Queues(defaults: seq<Fragment>, coerces: seq<Fragment>, validates: seq<Fragment>, changes: seq<Fragment>)
  {
    function All(): seq<Fragment> { defaults + coerces + validates + changes }
  }

  /** What the walk has gathered: the attributed candidates in member order, and the queues. */
  datatype Walked = Walked(candidates: seq<PropertyRecord>, queues: Queues)

  const NothingWalked := Walked([], Queues([], [], [], []))

  // ---------------------------------------------------------------- the attached-property pass

  /** The name the class-level attached-property pass looks attributes up by:
      the name of the generic attribute's type definition, which ends in the
      arity suffix "`1". */
  const WithAttachedGenericName := "WithAttachedPropertyAttribute`1"

  /** The class-level attached-property pass as written: `FindAll` refuses any
      name not ending in "Attribute", so the lookup throws ArgumentException
      for every type declaration, whatever attributes it has. */
  method WithAttachedPassAsWritten(lists: seq<AttributeList>) returns (r: Result<seq<Attribute>>)
    ensures r == Err(Argument("invalid attribute name"))
  {
    EndsWithDiffer(WithAttachedGenericName, "Attribute");
    r := FindAll(lists, WithAttachedGenericName);
  }

  // ---------------------------------------------------------------- the walk

  /** A method is queued under the first convention its name strips by:
      coerce, then validate, then changed handler. */
  function ClassifyMethod(info: OwnerInfo, m: MethodDecl): Option<Fragment> {
    var c := Strip(info.coerceCallbackName, m.name);
    if c.Some? then Some(CoerceFragment(c.value, m))
    else
      var v := Strip(info.validateCallbackName, m.name);
      if v.Some? then Some(ValidateFragment(v.value, m))
      else
        var h := Strip(info.propertyChangedHandlerName, m.name);
        if h.Some? then Some(ChangedFragment(h.value, m)) else None
  }

  /** A method is queued once, under the highest-priority convention that fits
      its name, and the queued name is the one that convention decorates into
      the method's name. */
  lemma ClassifyMethodPriority(info: OwnerInfo, m: MethodDecl)
    ensures var f := ClassifyMethod(info, m);
            (f.Some? && f.value.CoerceFragment? <==> Strip(info.coerceCallbackName, m.name).Some?)
            && (f.Some? && f.value.ValidateFragment? <==>
                  Strip(info.coerceCallbackName, m.name).None? && Strip(info.validateCallbackName, m.name).Some?)
            && (f.Some? && f.value.ChangedFragment? <==>
                  Strip(info.coerceCallbackName, m.name).None? && Strip(info.validateCallbackName, m.name).None?
                  && Strip(info.propertyChangedHandlerName, m.name).Some?)
            && (f.Some? ==> !f.value.DefaultValueFragment? && f.value.methodDecl == m
                            && ApplyTo(info.DecorationFor(ConventionOf(f.value)), f.value.name) == m.name)
  {
  }

  /** The naming convention a fragment was resolved by. */
  function ConventionOf(f: Fragment): Convention {
    match f
    case DefaultValueFragment(_, _) => DefaultValueName
    case CoerceFragment(_, _) => CoerceCallbackName
    case ValidateFragment(_, _) => ValidateCallbackName
    case ChangedFragment(_, _) => PropertyChangedHandlerName
  }

  /** One declarator of a field: a name that does not strip, or strips to the
      empty string, is passed over; otherwise the field is queued as a default
      value and the declarator's record is a candidate when it is attributed. */
  function StepDeclarator(info: OwnerInfo, f: FieldDecl, d: Declarator, w: Walked): Result<Walked> {
    var n := Strip(info.defaultValueName, d.name);
    if n.None? || n.value == "" then Ok(w)
    else
      var queued := w.(queues := w.queues.(defaults := w.queues.defaults + [DefaultValueFragment(n.value, f)]));
      var rec := FieldRecordOf(info, f, d);
      if rec.Err? then Err(rec.error)
      else if rec.value.hasAttribute then Ok(queued.(candidates := queued.candidates + [rec.value]))
      else Ok(queued)
  }

  function WalkDeclarators(info: OwnerInfo, f: FieldDecl, ds: seq<Declarator>, w: Walked): Result<Walked> {
    if ds == [] then Ok(w)
    else
      var prev := WalkDeclarators(info, f, ds[..|ds| - 1], w);
      if prev.Err? then prev else StepDeclarator(info, f, ds[|ds| - 1], prev.value)
  }

  /** One member: an attributed property is a candidate, a field goes declarator
      by declarator, a method may be queued; a failed attribute scan fails the walk. */
  function StepMember(info: OwnerInfo, m: Member, w: Walked): Result<Walked> {
    match m
    case Prop(p) =>
      var rec := PropertyRecordOf(info, p);
      if rec.Err? then Err(rec.error)
      else if rec.value.hasAttribute then Ok(w.(candidates := w.candidates + [rec.value]))
      else Ok(w)
    case Field(f) => WalkDeclarators(info, f, f.declarators, w)
    case Method(md) =>
      var frag := ClassifyMethod(info, md);
      if frag.None? then Ok(w)
      else
        var q := w.queues;
        Ok(w.(queues := match frag.value
                        case CoerceFragment(_, _) => q.(coerces := q.coerces + [frag.value])
                        case ValidateFragment(_, _) => q.(validates := q.validates + [frag.value])
                        case _ => q.(changes := q.changes + [frag.value])))
    case OtherMember => Ok(w)
  }

  function WalkMembers(info: OwnerInfo, members: seq<Member>): Result<Walked> {
    if members == [] then Ok(NothingWalked)
    else
      var prev := WalkMembers(info, members[..|members| - 1]);
      if prev.Err? then prev else StepMember(info, members[|members| - 1], prev.value)
  }

  // ---------------------------------------------------------------- merging by name

  /** The records in insertion order, and where each name sits. */
  datatype Table = Table(records: seq<PropertyRecord>, index: map<string, nat>)

  /** The index and the records agree: every name is indexed at its one record. */
  predicate WellFormed(t: Table) {
    (forall n :: n in t.index ==> t.index[n] < |t.records| && t.records[t.index[n]].name == n)
    && (forall k :: 0 <= k < |t.records| ==> t.records[k].name in t.index && t.index[t.records[k].name] == k)
  }

  /** A candidate under a new name is appended; one under a known name marks the
      existing record as duplicated and is dropped. */
  function AddRecord(t: Table, c: PropertyRecord): Table {
    if c.name in t.index && t.index[c.name] < |t.records| then
      var k := t.index[c.name];
      t.(records := t.records[k := t.records[k].(hasMultipleAttributes := true)])
    else Table(t.records + [c], t.index[c.name := |t.records|])
  }

  function Dedup(cs: seq<PropertyRecord>): Table {
    if cs == [] then Table([], map[]) else AddRecord(Dedup(cs[..|cs| - 1]), cs[|cs| - 1])
  }

  /** The first position of a name among the candidates. */
  function FirstIndex(cs: seq<PropertyRecord>, n: string): (r: Option<nat>)
    ensures r.Some? ==> r.value < |cs| && cs[r.value].name == n
  {
    if cs == [] then None
    else
      var prev := FirstIndex(cs[..|cs| - 1], n);
      if prev.Some? then prev else if cs[|cs| - 1].name == n then Some(|cs| - 1) else None
  }

  /** How many candidates carry a name. */
  function Count(cs: seq<PropertyRecord>, n: string): nat {
    if cs == [] then 0 else Count(cs[..|cs| - 1], n) + if cs[|cs| - 1].name == n then 1 else 0
  }

  /** The first position is the least one holding the name, and there is none
      exactly when the name is not counted. */
  lemma {:induction false} FirstIndexSpec(cs: seq<PropertyRecord>, n: string)
    ensures FirstIndex(cs, n).None? <==> Count(cs, n) == 0
    ensures FirstIndex(cs, n).None? <==> forall k :: 0 <= k < |cs| ==> cs[k].name != n
    ensures FirstIndex(cs, n).Some? ==> forall k :: 0 <= k < FirstIndex(cs, n).value ==> cs[k].name != n
    decreases |cs|
  {
    if cs != [] {
      FirstIndexSpec(cs[..|cs| - 1], n);
    }
  }

  /** Growing the candidates by one leaves the first position and count of every
      other name as they were. */
  lemma OtherNamesUnchanged(cs: seq<PropertyRecord>, c: PropertyRecord, n: string)
    requires n != c.name
    ensures Count(cs + [c], n) == Count(cs, n) && FirstIndex(cs + [c], n) == FirstIndex(cs, n)
  {
    assert (cs + [c])[..|cs|] == cs;
  }

  /** Merging keeps the index and the records in agreement, and indexes exactly
      the names the candidates carry. */
  lemma {:induction false} DedupIndex(cs: seq<PropertyRecord>)
    ensures WellFormed(Dedup(cs))
    ensures forall n :: n in Dedup(cs).index <==> Count(cs, n) > 0
    decreases |cs|
  {
    if cs != [] {
      var init := cs[..|cs| - 1];
      var c := cs[|cs| - 1];
      assert cs == init + [c];
      DedupIndex(init);
      forall n | n != c.name
        ensures Count(cs, n) == Count(init, n)
      {
        OtherNamesUnchanged(init, c, n);
      }
    }
  }

  /** The step of `DedupFirstWins` for one name, after one more candidate. */
  lemma DedupFirstWinsStep(init: seq<PropertyRecord>, c: PropertyRecord, n: string)
    requires n in Dedup(init).index ==>
               FirstIndex(init, n).Some? && Dedup(init).index[n] < |Dedup(init).records|
               && Dedup(init).records[Dedup(init).index[n]] == FirstWith(init, n)
    requires n in Dedup(init + [c]).index
    ensures FirstIndex(init + [c], n).Some? && Dedup(init + [c]).index[n] < |Dedup(init + [c]).records|
            && Dedup(init + [c]).records[Dedup(init + [c]).index[n]] == FirstWith(init + [c], n)
  {
    var cs := init + [c];
    assert cs[..|cs| - 1] == init;
    DedupIndex(init);
    DedupIndex(cs);
    var t := Dedup(init);
    var t' := Dedup(cs);
    assert t' == AddRecord(t, c);
    if n == c.name {
      FirstIndexSpec(init, n);
      if n in t.index {
        var k := t.index[n];
        assert FirstIndex(cs, n) == FirstIndex(init, n);
        assert Count(cs, n) > 1;
        assert t'.index[n] == k && t'.records[k] == t.records[k].(hasMultipleAttributes := true);
      } else {
        assert FirstIndex(cs, n) == Some(|init|);
        assert Count(cs, n) == 1;
        assert t'.index[n] == |t.records| && t'.records[|t.records|] == c;
      }
    } else {
      OtherNamesUnchanged(init, c, n);
      assert FirstWith(cs, n) == FirstWith(init, n);
      assert n in t.index;
      assert t'.index[n] == t.index[n];
      assert t'.records[t.index[n]] == t.records[t.index[n]];
    }
  }

  /** The record kept under a name is its first candidate, marked duplicated
      when the name came more than once. */
  lemma {:induction false} DedupFirstWins(cs: seq<PropertyRecord>)
    ensures forall n :: n in Dedup(cs).index ==>
              FirstIndex(cs, n).Some? && Dedup(cs).index[n] < |Dedup(cs).records|
              && Dedup(cs).records[Dedup(cs).index[n]] == FirstWith(cs, n)
    decreases |cs|
  {
    if cs != [] {
      var init := cs[..|cs| - 1];
      var c := cs[|cs| - 1];
      assert cs == init + [c];
      DedupFirstWins(init);
      forall n | n in Dedup(cs).index
        ensures FirstIndex(cs, n).Some? && Dedup(cs).index[n] < |Dedup(cs).records|
                && Dedup(cs).records[Dedup(cs).index[n]] == FirstWith(cs, n)
      {
        DedupFirstWinsStep(init, c, n);
      }
    }
  }

  /** The record merging keeps for a name that appears: its first candidate,
      marked duplicated when more than one candidate carries the name. */
  function FirstWith(cs: seq<PropertyRecord>, n: string): PropertyRecord
    requires FirstIndex(cs, n).Some?
  {
    var first := cs[FirstIndex(cs, n).value];
    first.(hasMultipleAttributes := first.hasMultipleAttributes || Count(cs, n) > 1)
  }

  /** Adding a candidate keeps the names of the records already there, and
      appends its name exactly when it is new. */
  lemma AddRecordNames(t: Table, c: PropertyRecord)
    requires WellFormed(t)
    ensures var t' := AddRecord(t, c);
            && (forall k :: 0 <= k < |t.records| ==> t'.records[k].name == t.records[k].name)
            && (c.name in t.index ==> |t'.records| == |t.records|)
            && (c.name !in t.index ==> |t'.records| == |t.records| + 1 && t'.records[|t.records|].name == c.name)
  {
  }

  /** The step of `DedupOrder` for one position, after one more candidate: an
      old record keeps its name's first position, and a new one sits last. */
  lemma DedupOrderStep(init: seq<PropertyRecord>, c: PropertyRecord, k: nat)
    requires k < |Dedup(init + [c]).records|
    ensures |Dedup(init + [c]).records| <= |Dedup(init).records| + 1
    ensures FirstIndex(init + [c], Dedup(init + [c]).records[k].name).Some?
    ensures k < |Dedup(init).records| ==>
              FirstIndex(init + [c], Dedup(init + [c]).records[k].name) == FirstIndex(init, Dedup(init).records[k].name)
    ensures k == |Dedup(init).records| ==> FirstIndex(init + [c], Dedup(init + [c]).records[k].name) == Some(|init|)
  {
    var cs := init + [c];
    assert cs[..|cs| - 1] == init;
    DedupIndex(init);
    var t := Dedup(init);
    var t' := Dedup(cs);
    AddRecordNames(t, c);
    var n := t'.records[k].name;
    if k < |t.records| {
      FirstIndexSpec(init, t.records[k].name);
    }
    if n == c.name {
      FirstIndexSpec(init, c.name);
    } else {
      OtherNamesUnchanged(init, c, n);
    }
  }

  /** Records are kept in the order their names first appear. */
  lemma {:induction false} DedupOrder(cs: seq<PropertyRecord>)
    ensures forall k :: 0 <= k < |Dedup(cs).records| ==> FirstIndex(cs, Dedup(cs).records[k].name).Some?
    ensures forall a, b :: 0 <= a < b < |Dedup(cs).records| ==>
              FirstIndex(cs, Dedup(cs).records[a].name).value < FirstIndex(cs, Dedup(cs).records[b].name).value
    decreases |cs|
  {
    if cs != [] {
      var init := cs[..|cs| - 1];
      var c := cs[|cs| - 1];
      assert cs == init + [c];
      DedupOrder(init);
      var t' := Dedup(cs);
      forall k | 0 <= k < |t'.records|
        ensures FirstIndex(cs, t'.records[k].name).Some?
      {
        DedupOrderStep(init, c, k);
      }
      forall a, b | 0 <= a < b < |t'.records|
        ensures FirstIndex(cs, t'.records[a].name).value < FirstIndex(cs, t'.records[b].name).value
      {
        DedupOrderStep(init, c, a);
        DedupOrderStep(init, c, b);
      }
    }
  }

  /** Records are unique by name. */
  lemma UniqueNames(t: Table)
    requires WellFormed(t)
    ensures forall a, b :: 0 <= a < b < |t.records| ==> t.records[a].name != t.records[b].name
  {
  }

  // ---------------------------------------------------------------- the passes

  /** Whether a default-value field may be assigned to: neither `const` nor `readonly`. */
  predicate Writeable(f: FieldDecl) {
    Const !in f.modifiers && ReadOnly !in f.modifiers
  }

  /** The `Mark*` update one fragment makes. `prototypeOf` is the shape the
      changed-handler pass assigns to a method. */
  function ApplyFragment(r: PropertyRecord, f: Fragment, prototypeOf: MethodDecl -> HandlerPrototype): PropertyRecord {
    match f
    case DefaultValueFragment(_, fd) =>
      r.(defaultValueLocation := Some(fd.loc), isDefaultValueWriteable := r.isDefaultValueWriteable || Writeable(fd))
    case CoerceFragment(_, md) => r.(coerceCallbackLocation := Some(md.loc))
    case ValidateFragment(_, md) => r.(validateCallbackLocation := Some(md.loc))
    case ChangedFragment(_, md) =>
      var proto := prototypeOf(md);
      r.(propertyChangedHandlerLocation := Some(if proto == Unsupported then NoLocation else md.loc), prototype := proto)
  }

  /** One fragment of a pass: it updates the record of its name, if there is one. */
  function PassFragment(t: Table, f: Fragment, prototypeOf: MethodDecl -> HandlerPrototype): Table {
    if f.name in t.index && t.index[f.name] < |t.records| then
      var k := t.index[f.name];
      t.(records := t.records[k := ApplyFragment(t.records[k], f, prototypeOf)])
    else t
  }

  /** A pass: each fragment in turn updates the record of its name, if there is one. */
  function Pass(t: Table, frags: seq<Fragment>, prototypeOf: MethodDecl -> HandlerPrototype): Table {
    if frags == [] then t
    else PassFragment(Pass(t, frags[..|frags| - 1], prototypeOf), frags[|frags| - 1], prototypeOf)
  }

  /** The updates the fragments of a record's own name make to it, in order. */
  function ApplyAll(r: PropertyRecord, frags: seq<Fragment>, prototypeOf: MethodDecl -> HandlerPrototype): PropertyRecord {
    if frags == [] then r
    else
      var prev := ApplyAll(r, frags[..|frags| - 1], prototypeOf);
      var f := frags[|frags| - 1];
      if f.name == r.name then ApplyFragment(prev, f, prototypeOf) else prev
  }

  /** The fragment fields of a record, as a value. */
  datatype Attached = Attached(
    defaultValueLocation: Option<Location>,
    isDefaultValueWriteable: bool,
    coerceCallbackLocation: Option<Location>,
    validateCallbackLocation: Option<Location>,
    propertyChangedHandlerLocation: Option<Location>,
    prototype: HandlerPrototype)

  function AttachedOf(r: PropertyRecord): Attached {
    Attached(r.defaultValueLocation, r.isDefaultValueWriteable, r.coerceCallbackLocation,
             r.validateCallbackLocation, r.propertyChangedHandlerLocation, r.prototype)
  }

  /** A record with its fragment fields taken from `a`. */
  function WithFragments(r: PropertyRecord, a: Attached): PropertyRecord {
    r.(defaultValueLocation := a.defaultValueLocation, isDefaultValueWriteable := a.isDefaultValueWriteable,
       coerceCallbackLocation := a.coerceCallbackLocation, validateCallbackLocation := a.validateCallbackLocation,
       propertyChangedHandlerLocation := a.propertyChangedHandlerLocation, prototype := a.prototype)
  }

  /** A pass changes no record's name and no index entry, and updates each
      record exactly by the fragments of its name. */
  lemma {:induction false} PassPointwise(t: Table, frags: seq<Fragment>, prototypeOf: MethodDecl -> HandlerPrototype)
    requires WellFormed(t)
    ensures Pass(t, frags, prototypeOf).index == t.index
    ensures |Pass(t, frags, prototypeOf).records| == |t.records|
    ensures forall k :: 0 <= k < |t.records| ==> Pass(t, frags, prototypeOf).records[k] == ApplyAll(t.records[k], frags, prototypeOf)
    ensures WellFormed(Pass(t, frags, prototypeOf))
    decreases |frags|
  {
    if frags != [] {
      PassPointwise(t, frags[..|frags| - 1], prototypeOf);
    }
  }

  /** Passes run one after the other are one pass over the joined queues. */
  lemma {:induction false} PassConcat(t: Table, a: seq<Fragment>, b: seq<Fragment>, prototypeOf: MethodDecl -> HandlerPrototype)
    ensures Pass(Pass(t, a, prototypeOf), b, prototypeOf) == Pass(t, a + b, prototypeOf)
    decreases |b|
  {
    if b == [] {
      assert a + b == a;
    } else {
      assert (a + b)[..|a + b| - 1] == a + b[..|b| - 1];
      PassConcat(t, a, b[..|b| - 1], prototypeOf);
    }
  }

  /** The location of the last fragment of a name resolved by a convention. */
  function LastLocation(frags: seq<Fragment>, n: string, c: Convention): Option<Location> {
    if frags == [] then None
    else
      var f := frags[|frags| - 1];
      if f.name == n && ConventionOf(f) == c then
        Some(if f.DefaultValueFragment? then f.fieldDecl.loc else f.methodDecl.loc)
      else LastLocation(frags[..|frags| - 1], n, c)
  }

  /** The method of the last changed-handler fragment of a name. */
  function LastChanged(frags: seq<Fragment>, n: string): Option<MethodDecl> {
    if frags == [] then None
    else
      var f := frags[|frags| - 1];
      if f.name == n && f.ChangedFragment? then Some(f.methodDecl) else LastChanged(frags[..|frags| - 1], n)
  }

  /** One fragment touches only the fragment fields. */
  lemma AttachOnlyFragmentFields(r: PropertyRecord, f: Fragment, prototypeOf: MethodDecl -> HandlerPrototype)
    ensures WithFragments(ApplyFragment(r, f, prototypeOf), AttachedOf(r)) == r
  {
  }

  /** Attaching fragments touches only a record's fragment fields. */
  lemma {:induction false} ApplyAllKeepsCore(r: PropertyRecord, frags: seq<Fragment>, prototypeOf: MethodDecl -> HandlerPrototype)
    ensures WithFragments(ApplyAll(r, frags, prototypeOf), AttachedOf(r)) == r
    decreases |frags|
  {
    if frags != [] {
      var prev := ApplyAll(r, frags[..|frags| - 1], prototypeOf);
      ApplyAllKeepsCore(r, frags[..|frags| - 1], prototypeOf);
      var f := frags[|frags| - 1];
      if f.name == r.name {
        AttachOnlyFragmentFields(prev, f, prototypeOf);
      }
    }
  }

  /** What one fragment does to the locations and the handler shape. */
  lemma FragmentEffect(r: PropertyRecord, f: Fragment, prototypeOf: MethodDecl -> HandlerPrototype)
    ensures var out := ApplyFragment(r, f, prototypeOf);
            && out.defaultValueLocation == (if f.DefaultValueFragment? then Some(f.fieldDecl.loc) else r.defaultValueLocation)
            && out.coerceCallbackLocation == (if f.CoerceFragment? then Some(f.methodDecl.loc) else r.coerceCallbackLocation)
            && out.validateCallbackLocation == (if f.ValidateFragment? then Some(f.methodDecl.loc) else r.validateCallbackLocation)
            && (out.isDefaultValueWriteable <==> r.isDefaultValueWriteable || (f.DefaultValueFragment? && Writeable(f.fieldDecl)))
            && (if f.ChangedFragment? then
                  out.prototype == prototypeOf(f.methodDecl)
                  && out.propertyChangedHandlerLocation == Some(if prototypeOf(f.methodDecl) == Unsupported then NoLocation else f.methodDecl.loc)
                else out.prototype == r.prototype && out.propertyChangedHandlerLocation == r.propertyChangedHandlerLocation)
  {
  }

  /** Each location is the last one queued for the record's name by its
      convention, or stays as it was when none was queued. */
  lemma {:induction false} ApplyAllLastWins(r: PropertyRecord, frags: seq<Fragment>, prototypeOf: MethodDecl -> HandlerPrototype)
    ensures var out := ApplyAll(r, frags, prototypeOf);
            && out.defaultValueLocation == (var l := LastLocation(frags, r.name, DefaultValueName);
                                            if l.Some? then l else r.defaultValueLocation)
            && out.coerceCallbackLocation == (var l := LastLocation(frags, r.name, CoerceCallbackName);
                                              if l.Some? then l else r.coerceCallbackLocation)
            && out.validateCallbackLocation == (var l := LastLocation(frags, r.name, ValidateCallbackName);
                                                if l.Some? then l else r.validateCallbackLocation)
    decreases |frags|
  {
    if frags != [] {
      var prev := ApplyAll(r, frags[..|frags| - 1], prototypeOf);
      ApplyAllLastWins(r, frags[..|frags| - 1], prototypeOf);
      var f := frags[|frags| - 1];
      if f.name == r.name {
        FragmentEffect(prev, f, prototypeOf);
      }
    }
  }

  /** The handler location and shape are those of the last changed handler
      queued for the name; a handler of unsupported shape leaves an empty location. */
  lemma {:induction false} ApplyAllLastHandler(r: PropertyRecord, frags: seq<Fragment>, prototypeOf: MethodDecl -> HandlerPrototype)
    ensures var out := ApplyAll(r, frags, prototypeOf);
            var h := LastChanged(frags, r.name);
            if h.None? then out.prototype == r.prototype && out.propertyChangedHandlerLocation == r.propertyChangedHandlerLocation
            else out.prototype == prototypeOf(h.value)
                 && out.propertyChangedHandlerLocation == Some(if prototypeOf(h.value) == Unsupported then NoLocation else h.value.loc)
    decreases |frags|
  {
    if frags != [] {
      var prev := ApplyAll(r, frags[..|frags| - 1], prototypeOf);
      ApplyAllLastHandler(r, frags[..|frags| - 1], prototypeOf);
      var f := frags[|frags| - 1];
      if f.name == r.name {
        FragmentEffect(prev, f, prototypeOf);
      }
    }
  }

  /** A default value is writeable once any field queued for the name is
      neither `const` nor `readonly`: a later read-only field does not undo it. */
  lemma {:induction false} ApplyAllWriteable(r: PropertyRecord, frags: seq<Fragment>, prototypeOf: MethodDecl -> HandlerPrototype)
    ensures ApplyAll(r, frags, prototypeOf).isDefaultValueWriteable <==>
              r.isDefaultValueWriteable
              || exists k :: 0 <= k < |frags| && frags[k].DefaultValueFragment? && frags[k].name == r.name
                             && Writeable(frags[k].fieldDecl)
    decreases |frags|
  {
    if frags != [] {
      var init := frags[..|frags| - 1];
      var prev := ApplyAll(r, init, prototypeOf);
      ApplyAllWriteable(r, init, prototypeOf);
      var f := frags[|frags| - 1];
      if f.name == r.name {
        FragmentEffect(prev, f, prototypeOf);
      }
      assert forall k :: 0 <= k < |init| ==> frags[k] == init[k];
    }
  }

  // ---------------------------------------------------------------- the whole analysis

  /** `AnalyzeProperties`, without the class-level attached-property pass (which
      contributes no records): the walk, the merge, and the four passes in the
      order default values, coerce, validate, changed. */
  function Analyze(info: OwnerInfo, members: seq<Member>, prototypeOf: MethodDecl -> HandlerPrototype): Result<seq<PropertyRecord>> {
    var w := WalkMembers(info, members);
    if w.Err? then Err(w.error)
    else
      var q := w.value.queues;
      var t := Dedup(w.value.candidates);
      Ok(Pass(Pass(Pass(Pass(t, q.defaults, prototypeOf), q.coerces, prototypeOf), q.validates, prototypeOf), q.changes, prototypeOf).records)
  }

  // ---------------------------------------------------------------- what the walk gathers

  /** The candidates are attributed records as the constructors produce them,
      with nothing attached yet; each queue holds fragments of its own kind;
      and the only failure is an attribute scan's. */
  predicate WalkInvariant(w: Walked) {
    (forall k :: 0 <= k < |w.candidates| ==> w.candidates[k].hasAttribute && NoFragments(w.candidates[k]))
    && (forall k :: 0 <= k < |w.queues.defaults| ==> w.queues.defaults[k].DefaultValueFragment?)
    && (forall k :: 0 <= k < |w.queues.coerces| ==> w.queues.coerces[k].CoerceFragment?)
    && (forall k :: 0 <= k < |w.queues.validates| ==> w.queues.validates[k].ValidateFragment?)
    && (forall k :: 0 <= k < |w.queues.changes| ==> w.queues.changes[k].ChangedFragment?)
  }

  lemma StepDeclaratorKeeps(info: OwnerInfo, f: FieldDecl, d: Declarator, w: Walked)
    requires WalkInvariant(w)
    ensures var r := StepDeclarator(info, f, d, w);
            (r.Ok? ==> WalkInvariant(r.value)) && (r.Err? ==> r.error == ArgumentOutOfRange)
  {
    var n := Strip(info.defaultValueName, d.name);
    if n.Some? && n.value != "" {
      FieldRecordShape(info, f, d);
      ScanFromMeaning(NothingSeen, Flatten(f.attributeLists), AttachedPropertyMarker);
    }
  }

  lemma {:induction false} WalkDeclaratorsKeeps(info: OwnerInfo, f: FieldDecl, ds: seq<Declarator>, w: Walked)
    requires WalkInvariant(w)
    ensures var r := WalkDeclarators(info, f, ds, w);
            (r.Ok? ==> WalkInvariant(r.value)) && (r.Err? ==> r.error == ArgumentOutOfRange)
    decreases |ds|
  {
    if ds != [] {
      WalkDeclaratorsKeeps(info, f, ds[..|ds| - 1], w);
      var prev := WalkDeclarators(info, f, ds[..|ds| - 1], w);
      if prev.Ok? {
        StepDeclaratorKeeps(info, f, ds[|ds| - 1], prev.value);
      }
    }
  }

  lemma StepMemberKeeps(info: OwnerInfo, m: Member, w: Walked)
    requires WalkInvariant(w)
    ensures var r := StepMember(info, m, w);
            (r.Ok? ==> WalkInvariant(r.value)) && (r.Err? ==> r.error == ArgumentOutOfRange)
  {
    match m
    case Prop(p) =>
      PropertyRecordShape(info, p);
      ScanFromMeaning(NothingSeen, Flatten(p.attributeLists), DependencyPropertyMarker);
    case Field(f) => WalkDeclaratorsKeeps(info, f, f.declarators, w);
    case Method(md) =>
    case OtherMember =>
  }

  /** The walk gathers only attributed, unattached candidates and sorts the
      fragments into their queues by kind; it fails only when a property or
      field has a marker attribute with an empty argument list. */
  lemma {:induction false} WalkMembersShape(info: OwnerInfo, members: seq<Member>)
    ensures var r := WalkMembers(info, members);
            (r.Ok? ==> WalkInvariant(r.value)) && (r.Err? ==> r.error == ArgumentOutOfRange)
    decreases |members|
  {
    if members != [] {
      WalkMembersShape(info, members[..|members| - 1]);
      var prev := WalkMembers(info, members[..|members| - 1]);
      if prev.Ok? {
        StepMemberKeeps(info, members[|members| - 1], prev.value);
      }
    }
  }

  /** Every candidate belongs to the class being analysed. */
  predicate OwnedBy(info: OwnerInfo, cs: seq<PropertyRecord>) {
    forall k :: 0 <= k < |cs| ==> cs[k].owner == info
  }

  lemma StepDeclaratorOwned(info: OwnerInfo, f: FieldDecl, d: Declarator, w: Walked)
    requires OwnedBy(info, w.candidates)
    ensures StepDeclarator(info, f, d, w).Ok? ==> OwnedBy(info, StepDeclarator(info, f, d, w).value.candidates)
  {
  }

  lemma {:induction false} WalkDeclaratorsOwned(info: OwnerInfo, f: FieldDecl, ds: seq<Declarator>, w: Walked)
    requires OwnedBy(info, w.candidates)
    ensures WalkDeclarators(info, f, ds, w).Ok? ==> OwnedBy(info, WalkDeclarators(info, f, ds, w).value.candidates)
    decreases |ds|
  {
    if ds != [] {
      WalkDeclaratorsOwned(info, f, ds[..|ds| - 1], w);
      var prev := WalkDeclarators(info, f, ds[..|ds| - 1], w);
      if prev.Ok? {
        StepDeclaratorOwned(info, f, ds[|ds| - 1], prev.value);
      }
    }
  }

  lemma StepMemberOwned(info: OwnerInfo, m: Member, w: Walked)
    requires OwnedBy(info, w.candidates)
    ensures StepMember(info, m, w).Ok? ==> OwnedBy(info, StepMember(info, m, w).value.candidates)
  {
    if m.Field? {
      WalkDeclaratorsOwned(info, m.field, m.field.declarators, w);
    }
  }

  /** The walk gathers only records of the class it walks. */
  lemma {:induction false} WalkMembersOwned(info: OwnerInfo, members: seq<Member>)
    ensures WalkMembers(info, members).Ok? ==> OwnedBy(info, WalkMembers(info, members).value.candidates)
    decreases |members|
  {
    if members != [] {
      WalkMembersOwned(info, members[..|members| - 1]);
      var prev := WalkMembers(info, members[..|members| - 1]);
      if prev.Ok? {
        StepMemberOwned(info, members[|members| - 1], prev.value);
      }
    }
  }

  // ---------------------------------------------------------------- what the analysis yields

  /** The four passes are one pass over the joined queues. */
  lemma AnalyzeIsOnePass(info: OwnerInfo, members: seq<Member>, prototypeOf: MethodDecl -> HandlerPrototype)
    requires WalkMembers(info, members).Ok?
    ensures var w := WalkMembers(info, members).value;
            Analyze(info, members, prototypeOf) == Ok(Pass(Dedup(w.candidates), w.queues.All(), prototypeOf).records)
  {
    var w := WalkMembers(info, members).value;
    var q := w.queues;
    var t := Dedup(w.candidates);
    PassConcat(t, q.defaults, q.coerces, prototypeOf);
    PassConcat(t, q.defaults + q.coerces, q.validates, prototypeOf);
    PassConcat(t, q.defaults + q.coerces + q.validates, q.changes, prototypeOf);
  }

  /** The analysis fails exactly when the walk does, and then only on a
      marker attribute with an empty argument list. */
  lemma AnalyzeFailsOnlyOnScan(info: OwnerInfo, members: seq<Member>, prototypeOf: MethodDecl -> HandlerPrototype)
    ensures Analyze(info, members, prototypeOf).Err? <==> WalkMembers(info, members).Err?
    ensures Analyze(info, members, prototypeOf).Err? ==> Analyze(info, members, prototypeOf).error == ArgumentOutOfRange
  {
    WalkMembersShape(info, members);
  }

  /** The records of a walk after the passes: one per name the merge keeps,
      each the merged record with fragments attached. */
  lemma AnalyzeRecords(info: OwnerInfo, members: seq<Member>, prototypeOf: MethodDecl -> HandlerPrototype)
    requires Analyze(info, members, prototypeOf).Ok?
    ensures var cs := WalkMembers(info, members).value.candidates;
            var recs := Analyze(info, members, prototypeOf).value;
            && |recs| == |Dedup(cs).records|
            && forall k :: 0 <= k < |recs| ==> WithFragments(recs[k], AttachedOf(Dedup(cs).records[k])) == Dedup(cs).records[k]
  {
    var w := WalkMembers(info, members).value;
    var t := Dedup(w.candidates);
    AnalyzeIsOnePass(info, members, prototypeOf);
    DedupIndex(w.candidates);
    PassPointwise(t, w.queues.All(), prototypeOf);
    forall k | 0 <= k < |t.records|
      ensures WithFragments(ApplyAll(t.records[k], w.queues.All(), prototypeOf), AttachedOf(t.records[k])) == t.records[k]
    {
      ApplyAllKeepsCore(t.records[k], w.queues.All(), prototypeOf);
    }
  }

  /** One record per attributed name: names are unique and every attributed
      candidate's name has its record. */
  lemma AnalyzeMerges(info: OwnerInfo, members: seq<Member>, prototypeOf: MethodDecl -> HandlerPrototype)
    requires Analyze(info, members, prototypeOf).Ok?
    ensures var cs := WalkMembers(info, members).value.candidates;
            var recs := Analyze(info, members, prototypeOf).value;
            && (forall a, b :: 0 <= a < b < |recs| ==> recs[a].name != recs[b].name)
            && (forall j :: 0 <= j < |cs| ==> exists k :: 0 <= k < |recs| && recs[k].name == cs[j].name)
  {
    var cs := WalkMembers(info, members).value.candidates;
    var t := Dedup(cs);
    var recs := Analyze(info, members, prototypeOf).value;
    AnalyzeRecords(info, members, prototypeOf);
    DedupIndex(cs);
    assert forall k :: 0 <= k < |recs| ==> recs[k].name == t.records[k].name by {
      forall k | 0 <= k < |recs| ensures recs[k].name == t.records[k].name {
        assert WithFragments(recs[k], AttachedOf(t.records[k])).name == recs[k].name;
      }
    }
    forall j | 0 <= j < |cs|
      ensures exists k :: 0 <= k < |recs| && recs[k].name == cs[j].name
    {
      FirstIndexSpec(cs, cs[j].name);
      assert recs[t.index[cs[j].name]].name == cs[j].name;
    }
  }

  /** Each record is the first attributed candidate of its name (marked
      duplicated when another candidate carried the name), and records come in
      the order their names first appeared. */
  lemma AnalyzeKeepsFirst(info: OwnerInfo, members: seq<Member>, prototypeOf: MethodDecl -> HandlerPrototype)
    requires Analyze(info, members, prototypeOf).Ok?
    ensures var cs := WalkMembers(info, members).value.candidates;
            var recs := Analyze(info, members, prototypeOf).value;
            && (forall k :: 0 <= k < |recs| ==>
                  (FirstIndex(cs, recs[k].name).Some?
                   && WithFragments(recs[k], AttachedOf(FirstWith(cs, recs[k].name))) == FirstWith(cs, recs[k].name)))
            && (forall a, b :: 0 <= a < b < |recs| ==>
                  FirstIndex(cs, recs[a].name).value < FirstIndex(cs, recs[b].name).value)
  {
    var cs := WalkMembers(info, members).value.candidates;
    var t := Dedup(cs);
    var recs := Analyze(info, members, prototypeOf).value;
    AnalyzeRecords(info, members, prototypeOf);
    DedupIndex(cs);
    DedupFirstWins(cs);
    DedupOrder(cs);
    forall k | 0 <= k < |recs|
      ensures recs[k].name == t.records[k].name
      ensures FirstIndex(cs, recs[k].name).Some?
      ensures WithFragments(recs[k], AttachedOf(FirstWith(cs, recs[k].name))) == FirstWith(cs, recs[k].name)
    {
      assert WithFragments(recs[k], AttachedOf(t.records[k])).name == recs[k].name;
      assert t.index[t.records[k].name] == k;
    }
  }
  /** Every record the analysis returns belongs to the class analysed. */
  lemma AnalyzeOwned(info: OwnerInfo, members: seq<Member>, prototypeOf: MethodDecl -> HandlerPrototype)
    requires Analyze(info, members, prototypeOf).Ok?
    ensures OwnedBy(info, Analyze(info, members, prototypeOf).value)
  {
    var cs := WalkMembers(info, members).value.candidates;
    var recs := Analyze(info, members, prototypeOf).value;
    AnalyzeKeepsFirst(info, members, prototypeOf);
    WalkMembersOwned(info, members);
    forall k | 0 <= k < |recs| ensures recs[k].owner == info {
      assert WithFragments(recs[k], AttachedOf(FirstWith(cs, recs[k].name))).owner == recs[k].owner;
    }
  }


  /** What the passes attach to each record: the last queued default-value
      field, coerce and validate method of its name, and the shape and location
      of its last changed handler (none when no handler was queued); the default
      is writeable when any queued field of the name is. */
  lemma AnalyzeAttaches(info: OwnerInfo, members: seq<Member>, prototypeOf: MethodDecl -> HandlerPrototype)
    requires Analyze(info, members, prototypeOf).Ok?
    ensures var frags := WalkMembers(info, members).value.queues.All();
            var recs := Analyze(info, members, prototypeOf).value;
            forall k :: 0 <= k < |recs| ==>
              var n := recs[k].name;
              && recs[k].defaultValueLocation == LastLocation(frags, n, DefaultValueName)
              && recs[k].coerceCallbackLocation == LastLocation(frags, n, CoerceCallbackName)
              && recs[k].validateCallbackLocation == LastLocation(frags, n, ValidateCallbackName)
              && (recs[k].isDefaultValueWriteable <==>
                    exists j :: 0 <= j < |frags| && frags[j].DefaultValueFragment? && frags[j].name == n
                                && Writeable(frags[j].fieldDecl))
              && (var h := LastChanged(frags, n);
                  if h.None? then recs[k].prototype == Unsupported && recs[k].propertyChangedHandlerLocation.None?
                  else recs[k].prototype == prototypeOf(h.value)
                       && recs[k].propertyChangedHandlerLocation
                          == Some(if prototypeOf(h.value) == Unsupported then NoLocation else h.value.loc))
  {
    var w := WalkMembers(info, members).value;
    var cs := w.candidates;
    var t := Dedup(cs);
    var frags := w.queues.All();
    WalkMembersShape(info, members);
    AnalyzeIsOnePass(info, members, prototypeOf);
    DedupIndex(cs);
    DedupFirstWins(cs);
    PassPointwise(t, frags, prototypeOf);
    var recs := Analyze(info, members, prototypeOf).value;
    forall k | 0 <= k < |recs|
      ensures var n := recs[k].name;
              && recs[k].defaultValueLocation == LastLocation(frags, n, DefaultValueName)
              && recs[k].coerceCallbackLocation == LastLocation(frags, n, CoerceCallbackName)
              && recs[k].validateCallbackLocation == LastLocation(frags, n, ValidateCallbackName)
              && (recs[k].isDefaultValueWriteable <==>
                    exists j :: 0 <= j < |frags| && frags[j].DefaultValueFragment? && frags[j].name == n
                                && Writeable(frags[j].fieldDecl))
              && (var h := LastChanged(frags, n);
                  if h.None? then recs[k].prototype == Unsupported && recs[k].propertyChangedHandlerLocation.None?
                  else recs[k].prototype == prototypeOf(h.value)
                       && recs[k].propertyChangedHandlerLocation
                          == Some(if prototypeOf(h.value) == Unsupported then NoLocation else h.value.loc))
    {
      var r := t.records[k];
      var n := r.name;
      assert t.index[n] == k;
      FirstIndexSpec(cs, n);
      assert NoFragments(r) by {
        assert r == FirstWith(cs, n);
        assert NoFragments(cs[FirstIndex(cs, n).value]);
      }
      ApplyAllKeepsCore(r, frags, prototypeOf);
      ApplyAllLastWins(r, frags, prototypeOf);
      ApplyAllLastHandler(r, frags, prototypeOf);
      ApplyAllWriteable(r, frags, prototypeOf);
    }
  }

  // ---------------------------------------------------------------- the method

  /** The live objects agree with a merge table: each object holds its record
      and the dictionary maps each indexed name to its object. */
  ghost predicate Mirrors(props: seq<PropertyData>, byName: map<string, PropertyData>, t: Table)
    reads set p | p in props
  {
    WellFormed(t) && |props| == |t.records|
    && (forall k :: 0 <= k < |props| ==> props[k].Record() == t.records[k])
    && byName.Keys == t.index.Keys
    && (forall n :: n in byName ==> byName[n] == props[t.index[n]])
  }

  /** Mirrored objects are distinct, since their names are. */
  lemma MirrorsDistinct(props: seq<PropertyData>, byName: map<string, PropertyData>, t: Table)
    requires Mirrors(props, byName, t)
    ensures forall a, b :: 0 <= a < b < |props| ==> props[a] != props[b]
  {
    forall a, b | 0 <= a < b < |props|
      ensures props[a] != props[b]
    {
      assert props[a].Record().name == t.records[a].name;
      assert props[b].Record().name == t.records[b].name;
    }
  }

  /** Objects that still hold all records but one, with that one replaced by a
      record of the same name, mirror the table with the replacement. */
  lemma MirrorsReplace(props: seq<PropertyData>, byName: map<string, PropertyData>, t: Table, k: nat, r: PropertyRecord)
    requires WellFormed(t) && |props| == |t.records| && k < |props| && r.name == t.records[k].name
    requires byName.Keys == t.index.Keys && forall n :: n in byName ==> byName[n] == props[t.index[n]]
    requires forall j :: 0 <= j < |props| && j != k ==> props[j].Record() == t.records[j]
    requires props[k].Record() == r
    ensures Mirrors(props, byName, t.(records := t.records[k := r]))
  {
    WellFormedReplace(t, k, r);
  }

  /** Replacing a record by one of the same name keeps a table well formed. */
  lemma WellFormedReplace(t: Table, k: nat, r: PropertyRecord)
    requires WellFormed(t) && k < |t.records| && r.name == t.records[k].name
    ensures WellFormed(t.(records := t.records[k := r]))
  {
  }

  /** Appending a new object under a new name. */
  lemma MirrorsAppend(props: seq<PropertyData>, byName: map<string, PropertyData>, t: Table, data: PropertyData)
    requires Mirrors(props, byName, t)
    requires data.name !in byName
    ensures Mirrors(props + [data], byName[data.name := data],
                    Table(t.records + [data.Record()], t.index[data.name := |t.records|]))
  {
    assert forall k :: 0 <= k < |props| ==> (props + [data])[k] == props[k];
  }

  /** The object held under a name is marked as duplicated. */
  method MarkDuplicate(props: seq<PropertyData>, byName: map<string, PropertyData>, name: string, ghost t: Table)
    requires Mirrors(props, byName, t) && name in byName
    modifies set p | p in props
    ensures Mirrors(props, byName, t.(records := t.records[t.index[name] := t.records[t.index[name]].(hasMultipleAttributes := true)]))
  {
    var existing := byName[name];
    ghost var k := t.index[name];
    MirrorsDistinct(props, byName, t);
    MarkOne(existing);
    forall j | 0 <= j < |props| && j != k
      ensures props[j].Record() == t.records[j]
    {
      assert props[j] != existing;
      assert old(props[j].Record()) == t.records[j];
    }
    MirrorsReplace(props, byName, t, k, Duplicated(t.records[k]));
  }

  /** A record marked as having more than one marker attribute. */
  function Duplicated(r: PropertyRecord): PropertyRecord {
    r.(hasMultipleAttributes := true)
  }

  method MarkOne(p: PropertyData)
    modifies p
    ensures p.Record() == Duplicated(old(p.Record()))
  {
    p.MarkHavingDuplicate();
  }

  /** Adds an attributed candidate under a new name, or marks the object already
      held under its name as duplicated. */
  method Keep(data: PropertyData, props: seq<PropertyData>, byName: map<string, PropertyData>, ghost t: Table)
      returns (props': seq<PropertyData>, byName': map<string, PropertyData>)
    requires Mirrors(props, byName, t)
    requires data !in props
    modifies set p | p in props
    ensures Mirrors(props', byName', AddRecord(t, old(data.Record())))
    ensures forall p :: p in props' ==> p in props || p == data
  {
    ghost var c := data.Record();
    if data.name in byName {
      ghost var k := t.index[data.name];
      assert AddRecord(t, c) == t.(records := t.records[k := t.records[k].(hasMultipleAttributes := true)]);
      MarkDuplicate(props, byName, data.name, t);
      props', byName' := props, byName;
    } else {
      assert AddRecord(t, c) == Table(t.records + [c], t.index[c.name := |t.records|]);
      MirrorsAppend(props, byName, t, data);
      props', byName' := props + [data], byName[data.name := data];
    }
  }

  /** A default-value fragment is the two `Mark*` updates in turn, the second
      only for a writeable field. */
  lemma ApplyDefaultValue(r: PropertyRecord, name: string, fd: FieldDecl, prototypeOf: MethodDecl -> HandlerPrototype)
    ensures ApplyFragment(r, DefaultValueFragment(name, fd), prototypeOf)
         == var r1 := r.(defaultValueLocation := Some(fd.loc));
            if Writeable(fd) then r1.(isDefaultValueWriteable := true) else r1
  {
  }

  /** One `Mark*` step for a fragment. */
  method Attach(p: PropertyData, f: Fragment, prototypeOf: MethodDecl -> HandlerPrototype)
    modifies p
    ensures p.Record() == ApplyFragment(old(p.Record()), f, prototypeOf)
  {
    match f {
      case DefaultValueFragment(name, fd) =>
        ApplyDefaultValue(p.Record(), name, fd, prototypeOf);
        p.MarkHavingDefaultValue(fd.loc);
        if Const !in fd.modifiers && ReadOnly !in fd.modifiers {
          p.MarkHavingWriteableDefaultValue();
        }
      case CoerceFragment(_, md) =>
        p.MarkHavingCoerceCallback(md.loc);
        assert p.Record() == ApplyFragment(old(p.Record()), f, prototypeOf);
      case ValidateFragment(_, md) =>
        p.MarkHavingValidationCallback(md.loc);
        assert p.Record() == ApplyFragment(old(p.Record()), f, prototypeOf);
      case ChangedFragment(_, md) =>
        p.MarkHavingChangedHandler(md.loc, prototypeOf(md));
        assert p.Record() == ApplyFragment(old(p.Record()), f, prototypeOf);
    }
  }

  lemma PassSnoc(t: Table, frags: seq<Fragment>, i: nat, prototypeOf: MethodDecl -> HandlerPrototype)
    requires i < |frags|
    ensures Pass(t, frags[..i + 1], prototypeOf) == PassFragment(Pass(t, frags[..i], prototypeOf), frags[i], prototypeOf)
  {
    assert frags[..i + 1][..i] == frags[..i];
  }

  /** The body of a pass's loop: the object held under the fragment's name, if
      there is one, takes the fragment. */
  method AttachNamed(props: seq<PropertyData>, byName: map<string, PropertyData>, f: Fragment,
                     prototypeOf: MethodDecl -> HandlerPrototype, ghost t: Table)
    requires Mirrors(props, byName, t)
    modifies set p | p in props
    ensures Mirrors(props, byName, PassFragment(t, f, prototypeOf))
  {
    if f.name !in byName {
      assert f.name !in t.index.Keys;
      return;
    }
    var p := byName[f.name];
    ghost var k := t.index[f.name];
    MirrorsDistinct(props, byName, t);
    Attach(p, f, prototypeOf);
    AttachOnlyFragmentFields(t.records[k], f, prototypeOf);
    assert ApplyFragment(t.records[k], f, prototypeOf).name == t.records[k].name by {
      assert WithFragments(ApplyFragment(t.records[k], f, prototypeOf), AttachedOf(t.records[k])).name
             == ApplyFragment(t.records[k], f, prototypeOf).name;
    }
    forall j | 0 <= j < |props| && j != k
      ensures props[j].Record() == t.records[j]
    {
      assert props[j] != p;
      assert old(props[j].Record()) == t.records[j];
    }
    MirrorsReplace(props, byName, t, k, ApplyFragment(t.records[k], f, prototypeOf));
  }

  /** One pass: each queued fragment whose name has an object marks it. */
  method RunPass(props: seq<PropertyData>, byName: map<string, PropertyData>, frags: seq<Fragment>,
                 prototypeOf: MethodDecl -> HandlerPrototype, ghost t: Table)
    requires Mirrors(props, byName, t)
    modifies set p | p in props
    ensures Mirrors(props, byName, Pass(t, frags, prototypeOf))
  {
    ghost var cur := t;
    var i := 0;
    while i < |frags|
      invariant 0 <= i <= |frags|
      invariant cur == Pass(t, frags[..i], prototypeOf)
      invariant Mirrors(props, byName, cur)
    {
      PassSnoc(t, frags, i, prototypeOf);
      AttachNamed(props, byName, frags[i], prototypeOf, cur);
      cur := PassFragment(cur, frags[i], prototypeOf);
      i := i + 1;
    }
    assert frags[..i] == frags;
  }

  lemma WalkDeclaratorsSnoc(info: OwnerInfo, f: FieldDecl, ds: seq<Declarator>, j: nat, w: Walked)
    requires j < |ds|
    ensures WalkDeclarators(info, f, ds[..j + 1], w)
            == var prev := WalkDeclarators(info, f, ds[..j], w);
               if prev.Err? then prev else StepDeclarator(info, f, ds[j], prev.value)
  {
    assert ds[..j + 1][..j] == ds[..j];
  }

  lemma WalkMembersSnoc(info: OwnerInfo, members: seq<Member>, i: nat)
    requires i < |members|
    ensures WalkMembers(info, members[..i + 1])
            == var prev := WalkMembers(info, members[..i]);
               if prev.Err? then prev else StepMember(info, members[i], prev.value)
  {
    assert members[..i + 1][..i] == members[..i];
  }

  lemma {:induction false} WalkDeclaratorsErrSticky(info: OwnerInfo, f: FieldDecl, ds: seq<Declarator>, j: nat, w: Walked)
    requires j <= |ds| && WalkDeclarators(info, f, ds[..j], w).Err?
    ensures WalkDeclarators(info, f, ds, w) == WalkDeclarators(info, f, ds[..j], w)
    decreases |ds| - j
  {
    if j < |ds| {
      assert ds[..j + 1][..j] == ds[..j];
      WalkDeclaratorsErrSticky(info, f, ds, j + 1, w);
    } else {
      assert ds[..j] == ds;
    }
  }

  lemma {:induction false} WalkMembersErrSticky(info: OwnerInfo, members: seq<Member>, i: nat)
    requires i <= |members| && WalkMembers(info, members[..i]).Err?
    ensures WalkMembers(info, members) == WalkMembers(info, members[..i])
    decreases |members| - i
  {
    if i < |members| {
      assert members[..i + 1][..i] == members[..i];
      WalkMembersErrSticky(info, members, i + 1);
    } else {
      assert members[..i] == members;
    }
  }

  /** One declarator of a field: a name that strips to a non-empty property
      name queues the field as that property's default value and, when the
      field carries the attached-property marker, offers its record. */
  method VisitDeclarator(info: OwnerInfo, fd: FieldDecl, d: Declarator, props: seq<PropertyData>,
                         byName: map<string, PropertyData>, found: Queues, ghost cs: seq<PropertyRecord>)
      returns (failure: Option<Exception>, props': seq<PropertyData>, byName': map<string, PropertyData>,
               found': Queues, ghost cs': seq<PropertyRecord>)
    requires Mirrors(props, byName, Dedup(cs))
    modifies set p | p in props
    ensures var s := StepDeclarator(info, fd, d, Walked(cs, found));
            && (failure.Some? <==> s.Err?)
            && (failure.Some? ==> failure.value == s.error)
            && (failure.None? ==> s.value == Walked(cs', found') && Mirrors(props', byName', Dedup(cs')))
    ensures forall p :: p in props' ==> p in props || fresh(p)
  {
    props', byName', found', cs' := props, byName, found, cs;
    var resPropName := Strip(info.defaultValueName, d.name);
    if resPropName.None? || resPropName.value == "" {
      return None, props', byName', found', cs';
    }
    found' := found'.(defaults := found'.defaults + [DefaultValueFragment(resPropName.value, fd)]);
    var attPropData := PropertyData.ForField(info, fd, d);
    if attPropData.Err? {
      return Some(attPropData.error), props', byName', found', cs';
    }
    if attPropData.value.hasAttribute {
      ghost var rec := attPropData.value.Record();
      props', byName' := Keep(attPropData.value, props', byName', Dedup(cs'));
      assert (cs' + [rec])[..|cs'|] == cs';
      cs' := cs' + [rec];
    }
    failure := None;
  }

  /** The declarators of one field, in order. */
  method WalkField(info: OwnerInfo, fd: FieldDecl, props: seq<PropertyData>, byName: map<string, PropertyData>,
                   found: Queues, ghost cs: seq<PropertyRecord>)
      returns (failure: Option<Exception>, props': seq<PropertyData>, byName': map<string, PropertyData>,
               found': Queues, ghost cs': seq<PropertyRecord>)
    requires Mirrors(props, byName, Dedup(cs))
    modifies set p | p in props
    ensures var w := WalkDeclarators(info, fd, fd.declarators, Walked(cs, found));
            && (failure.Some? <==> w.Err?)
            && (failure.Some? ==> failure.value == w.error)
            && (failure.None? ==> w.value == Walked(cs', found') && Mirrors(props', byName', Dedup(cs')))
    ensures forall p :: p in props' ==> p in props || fresh(p)
  {
    var ds := fd.declarators;
    props', byName', found', cs' := props, byName, found, cs;
    failure := None;
    var j := 0;
    while j < |ds|
      invariant 0 <= j <= |ds|
      invariant failure.None?
      invariant WalkDeclarators(info, fd, ds[..j], Walked(cs, found)) == Ok(Walked(cs', found'))
      invariant Mirrors(props', byName', Dedup(cs'))
      invariant forall p :: p in props' ==> p in props || fresh(p)
    {
      WalkDeclaratorsSnoc(info, fd, ds, j, Walked(cs, found));
      failure, props', byName', found', cs' := VisitDeclarator(info, fd, ds[j], props', byName', found', cs');
      if failure.Some? {
        WalkDeclaratorsErrSticky(info, fd, ds, j + 1, Walked(cs, found));
        return;
      }
      j := j + 1;
    }
    assert ds[..j] == ds;
  }

  /** One member of the class, as the walk of `AnalyzeProperties` treats it. */
  method VisitMember(info: OwnerInfo, m: Member, props: seq<PropertyData>, byName: map<string, PropertyData>,
                     found: Queues, ghost cs: seq<PropertyRecord>)
      returns (failure: Option<Exception>, props': seq<PropertyData>, byName': map<string, PropertyData>,
               found': Queues, ghost cs': seq<PropertyRecord>)
    requires Mirrors(props, byName, Dedup(cs))
    modifies set p | p in props
    ensures var s := StepMember(info, m, Walked(cs, found));
            && (failure.Some? <==> s.Err?)
            && (failure.Some? ==> failure.value == s.error)
            && (failure.None? ==> s.value == Walked(cs', found') && Mirrors(props', byName', Dedup(cs')))
    ensures forall p :: p in props' ==> p in props || fresh(p)
  {
    props', byName', found', cs' := props, byName, found, cs;
    failure := None;
    match m {
      case Prop(pd) =>
        var propData := PropertyData.ForProperty(info, pd);
        if propData.Err? {
          return Some(propData.error), props', byName', found', cs';
        }
        if propData.value.hasAttribute {
          ghost var rec := propData.value.Record();
          props', byName' := Keep(propData.value, props', byName', Dedup(cs'));
          assert (cs' + [rec])[..|cs'|] == cs';
          cs' := cs' + [rec];
        }
      case Field(fd) =>
        failure, props', byName', found', cs' := WalkField(info, fd, props, byName, found, cs);
      case Method(md) =>
        var propName := Strip(info.coerceCallbackName, md.name);
        if propName.Some? {
          found' := found.(coerces := found.coerces + [CoerceFragment(propName.value, md)]);
        } else {
          propName := Strip(info.validateCallbackName, md.name);
          if propName.Some? {
            found' := found.(validates := found.validates + [ValidateFragment(propName.value, md)]);
          } else {
            propName := Strip(info.propertyChangedHandlerName, md.name);
            if propName.Some? {
              found' := found.(changes := found.changes + [ChangedFragment(propName.value, md)]);
            }
          }
        }
      case OtherMember =>
    }
  }

  /** `AnalyzeProperties`: walks the members, merging attributed properties
      and fields by name and queueing default values and callbacks, then runs
      the four passes. The objects it returns are new, distinct, and hold the
      records `Analyze` describes; it fails exactly when `Analyze` does. */
  method AnalyzeProperties(info: OwnerInfo, members: seq<Member>, prototypeOf: MethodDecl -> HandlerPrototype)
      returns (r: Result<seq<PropertyData>>)
    ensures r.Err? <==> Analyze(info, members, prototypeOf).Err?
    ensures r.Err? ==> r.error == Analyze(info, members, prototypeOf).error
    ensures r.Ok? ==> |r.value| == |Analyze(info, members, prototypeOf).value|
    ensures r.Ok? ==> forall k :: 0 <= k < |r.value| ==>
                        fresh(r.value[k]) && r.value[k].Record() == Analyze(info, members, prototypeOf).value[k]
    ensures r.Ok? ==> forall a, b :: 0 <= a < b < |r.value| ==> r.value[a] != r.value[b]
  {
    var classPropertiesByName: map<string, PropertyData> := map[];
    var classProperties: seq<PropertyData> := [];
    var found := Queues([], [], [], []);
    ghost var cs: seq<PropertyRecord> := [];
    var i := 0;
    while i < |members|
      invariant 0 <= i <= |members|
      invariant WalkMembers(info, members[..i]) == Ok(Walked(cs, found))
      invariant Mirrors(classProperties, classPropertiesByName, Dedup(cs))
      invariant forall p :: p in classProperties ==> fresh(p)
    {
      WalkMembersSnoc(info, members, i);
      var failure;
      failure, classProperties, classPropertiesByName, found, cs :=
        VisitMember(info, members[i], classProperties, classPropertiesByName, found, cs);
      if failure.Some? {
        WalkMembersErrSticky(info, members, i + 1);
        return Err(failure.value);
      }
      i := i + 1;
    }
    assert members[..i] == members;
    ghost var t0 := Dedup(cs);
    ghost var t1 := Pass(t0, found.defaults, prototypeOf);
    ghost var t2 := Pass(t1, found.coerces, prototypeOf);
    ghost var t3 := Pass(t2, found.validates, prototypeOf);
    RunPass(classProperties, classPropertiesByName, found.defaults, prototypeOf, t0);
    RunPass(classProperties, classPropertiesByName, found.coerces, prototypeOf, t1);
    RunPass(classProperties, classPropertiesByName, found.validates, prototypeOf, t2);
    RunPass(classProperties, classPropertiesByName, found.changes, prototypeOf, t3);
    ghost var t4 := Pass(t3, found.changes, prototypeOf);
    assert Analyze(info, members, prototypeOf) == Ok(t4.records);
    MirrorsDistinct(classProperties, classPropertiesByName, t4);
    assert forall k :: 0 <= k < |classProperties| ==> fresh(classProperties[k]) by {
      assert forall k :: 0 <= k < |classProperties| ==> classProperties[k] in classProperties;
    }
    return Ok(classProperties);
  }
}
