/** Reading a decoration attribute off the syntax tree (the extension methods in
    Decoration.cs): decoding its arguments, finding it on a declaration, and
    walking outwards from a class to the compilation unit. */
module DecorationLookup {
  import opened Wrappers
  import opened Text
  import opened Syntax
  import opened AttributeHelper
  import opened Decorations
  import opened DecorationAttributes

  /** What an argument sets; `UnknownSlot` is "not named", which fills by position. */
  datatype Slot = UnknownSlot | PrefixSlot | SuffixSlot

  predicate SameName(a: string, b: string, ignoreCase: bool) {
    if ignoreCase then EqualsIgnoreCase(a, b) else a == b
  }

  /** `Enum.TryParse` of an argument's identifier into a slot name. */
  function ParseSlot(name: string, ignoreCase: bool): Option<Slot> {
    if SameName(name, "Unknown", ignoreCase) then Some(UnknownSlot)
    else if SameName(name, "Prefix", ignoreCase) then Some(PrefixSlot)
    else if SameName(name, "Suffix", ignoreCase) then Some(SuffixSlot)
    else None
  }

  /** The string constant an argument holds, `None` for anything else (null included). */
  function StringOf(e: Expr): Option<string> {
    if e.constant.StringConstant? then Some(e.constant.s) else None
  }

  /** An argument's decoded slot and string. */
  datatype Decoded = Decoded(slot: Slot, str: Option<string>)

  /** `DecodePrefixOrSuffixUsing`: a `name:` argument is matched ignoring case,
      a `Name =` argument exactly; a name that is not `Prefix` or `Suffix` yields no string. */
  function DecodePrefixOrSuffix(arg: AttributeArgument): Decoded
  {
    match arg.name
    case NameColon(n) =>
      var p := ParseSlot(n, true);
      if p.None? || p.value == UnknownSlot then Decoded(UnknownSlot, None) else Decoded(p.value, StringOf(arg.expr))
    case NameEquals(n) =>
      var p := ParseSlot(n, false);
      if p.None? || p.value == UnknownSlot then Decoded(UnknownSlot, None) else Decoded(p.value, StringOf(arg.expr))
    case Positional => Decoded(UnknownSlot, StringOf(arg.expr))
  }

  /** The decoding loop's state: the affixes set so far and the positional arguments seen. */
  datatype Slots = Slots(prefix: Option<string>, suffix: Option<string>, unnamedSeen: nat)

  const NotAString := InvalidOperation("Decoration attribute argument is not a string")

  /** One iteration of the decoding loop. */
  function DecodeStep(st: Slots, arg: AttributeArgument): Result<Slots> {
    var Decoded(slot, str) := DecodePrefixOrSuffix(arg);
    if str.None? then Err(NotAString)
    else
      match slot
      case PrefixSlot => Ok(st.(prefix := str))
      case SuffixSlot => Ok(st.(suffix := str))
      case UnknownSlot =>
        if st.unnamedSeen == 0 then Ok(st.(prefix := str, unnamedSeen := 1))
        else if st.unnamedSeen == 1 then Ok(st.(suffix := str, unnamedSeen := 2))
        else Ok(st.(unnamedSeen := st.unnamedSeen + 1))
  }

  /** The decoding loop run over `args`, left to right; the first bad argument throws. */
  function DecodeArguments(args: seq<AttributeArgument>): Result<Slots> {
    if args == [] then Ok(Slots(None, None, 0))
    else
      var prev := DecodeArguments(args[..|args| - 1]);
      if prev.Err? then prev else DecodeStep(prev.value, args[|args| - 1])
  }

  /** The `for` loop over an attribute's argument list. */
  method DecodeArgumentList(args: seq<AttributeArgument>) returns (r: Result<Slots>)
    ensures r == DecodeArguments(args)
  {
    var st := Slots(None, None, 0);
    var argIdx := 0;
    while argIdx < |args|
      invariant 0 <= argIdx <= |args|
      invariant DecodeArguments(args[..argIdx]) == Ok(st)
    {
      assert args[..argIdx + 1][..argIdx] == args[..argIdx];
      var Decoded(slot, str) := DecodePrefixOrSuffix(args[argIdx]);
      if str.None? {
        FailureSticks(args, argIdx + 1);
        return Err(NotAString);
      }
      match slot {
        case PrefixSlot => st := st.(prefix := str);
        case SuffixSlot => st := st.(suffix := str);
        case UnknownSlot =>
          if st.unnamedSeen == 0 {
            st := st.(prefix := str);
          } else if st.unnamedSeen == 1 {
            st := st.(suffix := str);
          }
          st := st.(unnamedSeen := st.unnamedSeen + 1);
      }
      argIdx := argIdx + 1;
    }
    assert args[..argIdx] == args;
    r := Ok(st);
  }

  /** Once an argument prefix fails, every longer prefix fails the same way. */
  lemma {:induction false} FailureSticks(args: seq<AttributeArgument>, n: nat)
    requires 0 < n <= |args|
    requires DecodeArguments(args[..n]) == Err(NotAString)
    ensures DecodeArguments(args) == Err(NotAString)
    decreases |args| - n
  {
    if n < |args| {
      assert args[..n + 1][..n] == args[..n];
      FailureSticks(args, n + 1);
    } else {
      assert args[..n] == args;
    }
  }

  /** Reference reading of the loop, argument by argument: the number of positional
      arguments before position `k` ... */
  function PositionalCount(args: seq<AttributeArgument>): nat {
    if args == [] then 0
    else PositionalCount(args[..|args| - 1]) + if args[|args| - 1].name.Positional? then 1 else 0
  }

  /** ... which affix argument `k` sets: its name if it has one, otherwise the
      first positional argument sets the prefix, the second the suffix, later ones nothing. */
  function Target(args: seq<AttributeArgument>, k: nat): Option<Slot>
    requires k < |args|
  {
    if !args[k].name.Positional? then Some(DecodePrefixOrSuffix(args[k]).slot)
    else
      var before := PositionalCount(args[..k]);
      if before == 0 then Some(PrefixSlot) else if before == 1 then Some(SuffixSlot) else None
  }

  /** ... and the string of the last argument that sets `slot`. */
  function LastWritten(args: seq<AttributeArgument>, slot: Slot): Option<string> {
    if args == [] then None
    else if Target(args, |args| - 1) == Some(slot) then DecodePrefixOrSuffix(args[|args| - 1]).str
    else LastWritten(args[..|args| - 1], slot)
  }

  /** Decoding fails exactly when some argument holds no string (or has an unknown name),
      and otherwise the prefix and suffix are the last ones written, positionally or by name. */
  lemma {:induction false} DecodeIsLastWriter(args: seq<AttributeArgument>)
    ensures DecodeArguments(args).Err? <==> exists k :: 0 <= k < |args| && DecodePrefixOrSuffix(args[k]).str.None?
    ensures DecodeArguments(args).Ok? ==>
              DecodeArguments(args).value == Slots(LastWritten(args, PrefixSlot), LastWritten(args, SuffixSlot), PositionalCount(args))
    decreases |args|
  {
    if args != [] {
      var init := args[..|args| - 1];
      var k := |args| - 1;
      DecodeIsLastWriter(init);
      assert args[..k] == init;
      assert forall j :: 0 <= j < k ==> init[j] == args[j];
      if DecodeArguments(init).Ok? {
        forall j | 0 <= j < k ensures Target(args, j) == Target(init, j) {
          assert args[..j] == init[..j];
        }
        var Decoded(slot, str) := DecodePrefixOrSuffix(args[k]);
        if str.Some? && !args[k].name.Positional? {
          assert slot != UnknownSlot;
        }
      }
    }
  }

  /** Colon-named arguments match their slot ignoring case (`prefix: "x"`). */
  lemma ColonNamesIgnoreCase()
    ensures DecodePrefixOrSuffix(AttributeArgument(NameColon("prefix"), Expr(StringConstant("x"), "string", NoLocation)))
         == Decoded(PrefixSlot, Some("x"))
  {
    assert EqualsIgnoreCase("prefix", "Prefix") by {
      assert ToUpperInvariant('p') == 'P';
    }
    assert !EqualsIgnoreCase("prefix", "Unknown") by {
      assert ToUpperInvariant('p') != ToUpperInvariant('U');
    }
  }

  /** An equals-named argument is matched exactly: `prefix = "x"` sets nothing and throws. */
  lemma EqualsNamesAreCaseSensitive(st: Slots)
    ensures DecodeStep(st, AttributeArgument(NameEquals("prefix"), Expr(StringConstant("x"), "string", NoLocation)))
         == Err(NotAString)
  {
    assert "prefix" != "Prefix" by { assert "prefix"[0] != "Prefix"[0]; }
    assert "prefix" != "Suffix" by { assert "prefix"[0] != "Suffix"[0]; }
  }

  /** The decoration an attribute usage stands for: missing affixes come from
      the attribute class's defaults, then the decoration's own checks apply. */
  function DecorationOf(attr: Attribute, c: Convention): (r: Result<Decoration>)
    ensures attr.args.None? ==> r == Ok(Default(c))
  {
    var slots := if attr.args.None? then Ok(Slots(None, None, 0)) else DecodeArguments(attr.args.value);
    if slots.Err? then Err(slots.error)
    else
      var prefix := if slots.value.prefix.Some? then slots.value.prefix.value else DefaultPrefix(c);
      var suffix := if slots.value.suffix.Some? then slots.value.suffix.value else DefaultSuffix(c);
      NewDecoration(Some(prefix), Some(suffix))
  }

  /** The decoration of an attribute with arguments: its last-written affixes, with
      defaults for the ones never written, refused when both end up empty. */
  lemma DecorationOfArguments(attr: Attribute, c: Convention)
    requires attr.args.Some?
    requires forall k :: 0 <= k < |attr.args.value| ==> DecodePrefixOrSuffix(attr.args.value[k]).str.Some?
    ensures var args := attr.args.value;
            var prefix := if LastWritten(args, PrefixSlot).Some? then LastWritten(args, PrefixSlot).value else DefaultPrefix(c);
            var suffix := if LastWritten(args, SuffixSlot).Some? then LastWritten(args, SuffixSlot).value else DefaultSuffix(c);
            (prefix == "" && suffix == "" ==> DecorationOf(attr, c).Err?) &&
            (prefix != "" || suffix != "" ==> DecorationOf(attr, c) == Ok(Affixes(prefix, suffix)))
  {
    DecodeIsLastWriter(attr.args.value);
  }

  /** A positional argument holding a string constant. */
  function PositionalString(s: string): AttributeArgument {
    AttributeArgument(Positional, Expr(StringConstant(s), "string", NoLocation))
  }

  /** A third positional argument is decoded and ignored. */
  lemma ThirdPositionalIgnored(c: Convention, a: string, b: string, x: string)
    requires a != "" || b != ""
    ensures DecorationOf(Attribute(AttributeName("X", false),
                                   Some([PositionalString(a), PositionalString(b), PositionalString(x)])), c)
         == Ok(Affixes(a, b))
  {
    var args := [PositionalString(a), PositionalString(b), PositionalString(x)];
    assert args[..1][..0] == [];
    assert DecodeArguments(args[..1]) == Ok(Slots(Some(a), None, 1));
    assert args[..2][..1] == args[..1];
    assert DecodeArguments(args[..2]) == Ok(Slots(Some(a), Some(b), 2));
    assert args[..2] == args[..|args| - 1];
    assert DecodeArguments(args) == Ok(Slots(Some(a), Some(b), 3));
  }

  /** A found decoration, or the exception building it threw. */
  function Found(d: Result<Decoration>): Result<Option<Decoration>> {
    if d.Err? then Err(d.error) else Ok(Some(d.value))
  }

  /** The first element of `s` that satisfies `p`. */
  function FirstMatch<T>(s: seq<T>, p: T -> bool): Option<T> {
    if s == [] then None
    else if p(s[0]) then Some(s[0])
    else FirstMatch(s[1..], p)
  }

  /** There is no first match exactly when no element satisfies `p`. */
  lemma {:induction false} FirstMatchNone<T>(s: seq<T>, p: T -> bool)
    ensures FirstMatch(s, p).None? <==> forall x :: x in s ==> !p(x)
  {
    if s != [] {
      FirstMatchNone(s[1..], p);
      assert s == [s[0]] + s[1..];
    }
  }

  /** The first match is the satisfying element with none before it. */
  lemma {:induction false} FirstMatchAt<T>(s: seq<T>, i: nat, p: T -> bool)
    requires i < |s| && p(s[i])
    requires forall j :: 0 <= j < i ==> !p(s[j])
    ensures FirstMatch(s, p) == Some(s[i])
  {
    if i > 0 {
      assert !p(s[0]);
      var rest := s[1..];
      assert forall j :: 0 <= j < i - 1 ==> rest[j] == s[j + 1];
      FirstMatchAt(rest, i - 1, p);
    }
  }

  /** The first match in `a + b` is the first in `a`, or, with none there, the first in `b`. */
  lemma {:induction false} FirstMatchConcat<T>(a: seq<T>, b: seq<T>, p: T -> bool)
    ensures FirstMatch(a + b, p) == if FirstMatch(a, p).None? then FirstMatch(b, p) else FirstMatch(a, p)
    decreases |a|
  {
    if a != [] {
      assert (a + b)[0] == a[0];
      assert (a + b)[1..] == a[1..] + b;
      FirstMatchConcat(a[1..], b, p);
    } else {
      assert a + b == b;
    }
  }

  /** The test `FindIn` applies to each attribute: its name stands for `name`. */
  function Named(name: string): Attribute -> bool {
    a => NameMatches(a, name)
  }

  /** `FindIn` over one list: it decides at the first attribute whose name
      matches, whatever its arguments, by decoding that attribute. */
  function FindInSpec(attrs: seq<Attribute>, c: Convention): Result<Option<Decoration>> {
    var first := FirstMatch(attrs, Named(AttributeTypeName(c)));
    if first.None? then Ok(None) else Found(DecorationOf(first.value, c))
  }

  /** Nothing is found exactly when no attribute carries the convention's name. */
  lemma FindInSpecNone(attrs: seq<Attribute>, c: Convention)
    ensures FindInSpec(attrs, c) == Ok(None) <==> forall a :: a in attrs ==> !NameMatches(a, AttributeTypeName(c))
  {
    FirstMatchNone(attrs, Named(AttributeTypeName(c)));
  }

  /** Otherwise the result is the decoration of the first attribute that does. */
  lemma FindInSpecFirst(attrs: seq<Attribute>, i: nat, c: Convention)
    requires i < |attrs| && NameMatches(attrs[i], AttributeTypeName(c))
    requires forall j :: 0 <= j < i ==> !NameMatches(attrs[j], AttributeTypeName(c))
    ensures FindInSpec(attrs, c) == Found(DecorationOf(attrs[i], c))
  {
    FirstMatchAt(attrs, i, Named(AttributeTypeName(c)));
  }

  /** Searching lists in turn is searching their concatenation. */
  lemma FindInSpecConcat(a: seq<Attribute>, b: seq<Attribute>, c: Convention)
    ensures FindInSpec(a + b, c) == if FindInSpec(a, c) == Ok(None) then FindInSpec(b, c) else FindInSpec(a, c)
  {
    FirstMatchConcat(a, b, Named(AttributeTypeName(c)));
  }

  /** One step of the scan: element `i` is the first match from `i` on, or the scan moves past it. */
  lemma FirstMatchStep<T>(s: seq<T>, i: nat, p: T -> bool)
    requires i < |s|
    ensures FirstMatch(s[i..], p) == if p(s[i]) then Some(s[i]) else FirstMatch(s[i + 1..], p)
  {
    assert s[i..][0] == s[i];
    assert s[i..][1..] == s[i + 1..];
  }

  /** The body of `FindIn` once an attribute's name matched: decode its
      arguments, fill the missing affixes from the attribute class's defaults,
      and build the decoration. */
  method DecorationFromAttribute(attr: Attribute, c: Convention) returns (r: Result<Decoration>)
    ensures r == DecorationOf(attr, c)
  {
    var slots := Ok(Slots(None, None, 0));
    if attr.args.Some? {
      slots := DecodeArgumentList(attr.args.value);
    }
    if slots.Err? {
      return Err(slots.error);
    }
    var prefix := slots.value.prefix;
    var suffix := slots.value.suffix;
    if prefix.None? || suffix.None? {
      if prefix.None? {
        prefix := Some(DefaultPrefix(c));
      }
      if suffix.None? {
        suffix := Some(DefaultSuffix(c));
      }
    }
    r := NewDecoration(prefix, suffix);
  }

  /** `FindIn` over one attribute list. */
  method FindIn(attrs: seq<Attribute>, c: Convention) returns (r: Result<Option<Decoration>>)
    ensures r == FindInSpec(attrs, c)
  {
    var expectedName := AttributeTypeName(c);
    ghost var named := Named(expectedName);
    var i := 0;
    while i < |attrs|
      invariant 0 <= i <= |attrs|
      invariant FirstMatch(attrs, named) == FirstMatch(attrs[i..], named)
    {
      var attr := attrs[i];
      FirstMatchStep(attrs, i, named);
      if !NameMatches(attr, expectedName) {
        i := i + 1;
        continue;
      }
      var d := DecorationFromAttribute(attr, c);
      if d.Err? {
        return Err(d.error);
      }
      return Ok(Some(d.value));
    }
    assert attrs[i..] == [];
    r := Ok(None);
  }

  /** Searching the lists from the `i`-th on: list `i` decides, unless it has no match. */
  lemma FindInListsStep(lists: seq<AttributeList>, i: nat, c: Convention)
    requires i < |lists|
    ensures FindInSpec(Flatten(lists[i..]), c)
         == if FindInSpec(lists[i], c) == Ok(None) then FindInSpec(Flatten(lists[i + 1..]), c) else FindInSpec(lists[i], c)
  {
    FlattenCons(lists[i..]);
    assert lists[i..][1..] == lists[i + 1..];
    FindInSpecConcat(lists[i], Flatten(lists[i + 1..]), c);
  }

  /** `FindIn` over a declaration's attribute lists: the first list that yields a
      decoration (or throws) decides. */
  method FindInLists(lists: seq<AttributeList>, c: Convention) returns (r: Result<Option<Decoration>>)
    ensures r == FindInSpec(Flatten(lists), c)
  {
    var i := 0;
    while i < |lists|
      invariant 0 <= i <= |lists|
      invariant FindInSpec(Flatten(lists), c) == FindInSpec(Flatten(lists[i..]), c)
    {
      var found := FindIn(lists[i], c);
      FindInListsStep(lists, i, c);
      if found != Ok(None) {
        return found;
      }
      i := i + 1;
    }
    assert lists[i..] == [];
    r := Ok(None);
  }

  /** The attribute lists a scope offers: those of a member declaration or of the
      compilation unit; other nodes are skipped. */
  function ScopeLists(s: Scope): seq<AttributeList> {
    match s
    case MemberScope(_, lists) => lists
    case UnitScope(lists) => lists
    case OtherScope => []
  }

  /** Searching one scope's attribute lists for the convention's attribute. */
  function SearchScope(c: Convention): Scope -> Result<Option<Decoration>> {
    s => FindInSpec(Flatten(ScopeLists(s)), c)
  }

  /** The walk outwards over `chain` with `search` deciding each scope: the first
      scope where it finds a decoration (or throws) decides, and with none the
      attribute class's default is used. */
  function DecorationFromChainWith(chain: seq<Scope>, c: Convention, search: Scope -> Result<Option<Decoration>>): Result<Decoration> {
    if chain == [] then Ok(Default(c))
    else
      var found := search(chain[0]);
      if found.Err? then Err(found.error)
      else if found.value.Some? then Ok(found.value.value)
      else DecorationFromChainWith(chain[1..], c, search)
  }

  /** `GetDecorationFrom`: the nearest scope, from the class outwards, that carries
      the convention's attribute decides; with none, the attribute class's default. */
  function DecorationFromChain(chain: seq<Scope>, c: Convention): Result<Decoration> {
    DecorationFromChainWith(chain, c, SearchScope(c))
  }

  /** One scope of the walk: what searching it found decides, unless it found nothing. */
  lemma ChainStep(chain: seq<Scope>, n: nat, c: Convention, search: Scope -> Result<Option<Decoration>>, found: Result<Option<Decoration>>)
    requires n < |chain| && found == search(chain[n])
    ensures DecorationFromChainWith(chain[n..], c, search)
         == if found.Err? then Err(found.error)
            else if found.value.Some? then Ok(found.value.value)
            else DecorationFromChainWith(chain[n + 1..], c, search)
  {
    assert chain[n..][0] == chain[n];
    assert chain[n..][1..] == chain[n + 1..];
  }

  /** The `switch` in `GetDecorationFrom`'s loop: a member declaration's or the
      compilation unit's attribute lists are searched, any other node finds nothing. */
  method SearchScopeOf(scope: Scope, c: Convention) returns (found: Result<Option<Decoration>>)
    ensures found == SearchScope(c)(scope)
  {
    match scope {
      case MemberScope(_, lists) =>
        found := FindInLists(lists, c);
      case UnitScope(lists) =>
        found := FindInLists(lists, c);
      case OtherScope =>
        found := Ok(None);
    }
  }

  method GetDecorationFrom(chain: seq<Scope>, c: Convention) returns (r: Result<Decoration>)
    ensures r == DecorationFromChain(chain, c)
  {
    ghost var search := SearchScope(c);
    var n := 0;
    while n < |chain|
      invariant 0 <= n <= |chain|
      invariant DecorationFromChainWith(chain, c, search) == DecorationFromChainWith(chain[n..], c, search)
    {
      var decoration := SearchScopeOf(chain[n], c);
      ChainStep(chain, n, c, search, decoration);
      if decoration.Err? {
        return Err(decoration.error);
      }
      if decoration.value.Some? {
        return Ok(decoration.value.value);
      }
      n := n + 1;
    }
    assert chain[n..] == [];
    r := Ok(Default(c));
  }

  /** Scopes without the convention's attribute are passed over: with none anywhere,
      the default decoration is used. */
  lemma {:induction false} UnmarkedScopesPassedOver(pre: seq<Scope>, post: seq<Scope>, c: Convention)
    requires forall s, a :: s in pre && a in Flatten(ScopeLists(s)) ==> !NameMatches(a, AttributeTypeName(c))
    ensures DecorationFromChain(pre + post, c) == DecorationFromChain(post, c)
    ensures post == [] ==> DecorationFromChain(pre, c) == Ok(Default(c))
    decreases |pre|
  {
    if pre == [] {
      assert pre + post == post;
    } else {
      FindInSpecNone(Flatten(ScopeLists(pre[0])), c);
      assert (pre + post)[0] == pre[0];
      assert (pre + post)[1..] == pre[1..] + post;
      UnmarkedScopesPassedOver(pre[1..], post, c);
      if post == [] {
        assert pre + post == pre;
      }
    }
  }

  /** The nearest scope carrying the attribute wins over every outer one. */
  lemma NearestScopeWins(s: Scope, outer: seq<Scope>, c: Convention, a: Attribute)
    requires a in Flatten(ScopeLists(s)) && NameMatches(a, AttributeTypeName(c))
    ensures DecorationFromChain([s] + outer, c) == DecorationFromChain([s], c)
  {
    FindInSpecNone(Flatten(ScopeLists(s)), c);
    assert ([s] + outer)[0] == s;
  }
}
