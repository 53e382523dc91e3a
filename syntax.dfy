/** The compiler's syntax and semantic queries, reduced to the values the
    generator reads from them. Every Roslyn query (constant value, type info,
    location, declared symbol) appears here as data already attached to a node. */
module Syntax {
  import opened Wrappers

  /** A diagnostic location; `NoLocation` is Roslyn's non-null `Location.None`. */
  datatype Location = NoLocation | SourceSpan(id: nat)

  /** What `GetConstantValue(expr)` yields: no constant, a `null` constant,
      a string, a bool, or any other constant with its `ToString()` text. */
  datatype Constant =
    | NoConstant
    | NullConstant
    | StringConstant(s: string)
    | BoolConstant(b: bool)
    | OtherConstant(text: string)

  /** An argument expression with its semantic facts: constant value,
      the text of its static type and its location. */
  datatype Expr = Expr(constant: Constant, typeText: string, loc: Location)

  /** How an attribute argument is named: `x: e` (NameColon), `X = e` (NameEquals) or not at all. */
  datatype ArgName = Positional | NameColon(colonName: string) | NameEquals(equalsName: string)

  datatype AttributeArgument = AttributeArgument(name: ArgName, expr: Expr)

  /** An attribute usage: its name as written (`qualified` for `A.B` and `a::B` forms)
      and its argument list, `None` when it has no parentheses. */
  datatype AttributeName = AttributeName(text: string, qualified: bool)
  datatype Attribute = Attribute(name: AttributeName, args: Option<seq<AttributeArgument>>)

  /** One `[...]` section; a declaration carries a sequence of them. */
  type AttributeList = seq<Attribute>

  /** The attributes of all lists, list by list. */
  function Flatten(lists: seq<AttributeList>): seq<Attribute>
  {
    if lists == [] then [] else Flatten(lists[..|lists| - 1]) + lists[|lists| - 1]
  }

  lemma FlattenStep(lists: seq<AttributeList>, i: nat)
    requires i < |lists|
    ensures Flatten(lists[..i + 1]) == Flatten(lists[..i]) + lists[i]
  {
    assert lists[..i + 1][..i] == lists[..i];
  }

  lemma {:induction false} FlattenConcat(a: seq<AttributeList>, b: seq<AttributeList>)
    ensures Flatten(a + b) == Flatten(a) + Flatten(b)
    decreases |b|
  {
    if b == [] {
      assert a + b == a;
    } else {
      var b' := b[..|b| - 1];
      assert (a + b)[..|a + b| - 1] == a + b';
      FlattenConcat(a, b');
    }
  }

  /** The attributes of the first `i` lists come first in the flattened sequence. */
  lemma FlattenPrefix(lists: seq<AttributeList>, i: nat)
    requires i <= |lists|
    ensures Flatten(lists) == Flatten(lists[..i]) + Flatten(lists[i..])
  {
    assert lists == lists[..i] + lists[i..];
    FlattenConcat(lists[..i], lists[i..]);
  }

  /** The first list's attributes come first. */
  lemma FlattenCons(lists: seq<AttributeList>)
    requires lists != []
    ensures Flatten(lists) == lists[0] + Flatten(lists[1..])
  {
    FlattenPrefix(lists, 1);
    assert lists[..1] == [lists[0]];
    assert [lists[0]][..0] == [];
  }

  /** Every attribute of every list is in the flattened sequence. */
  lemma {:induction false} FlattenMember(lists: seq<AttributeList>, i: nat, j: nat)
    requires i < |lists| && j < |lists[i]|
    ensures lists[i][j] in Flatten(lists)
    decreases |lists|
  {
    var init := lists[..|lists| - 1];
    if i < |lists| - 1 {
      FlattenMember(init, i, j);
    }
  }

  /** The attribute at position `j` of list `i` follows exactly the attributes
      before it, in the flattened sequence. */
  lemma FlattenAt(lists: seq<AttributeList>, i: nat, j: nat)
    requires i < |lists| && j < |lists[i]|
    ensures |Flatten(lists[..i])| + j < |Flatten(lists)|
    ensures Flatten(lists)[|Flatten(lists[..i])| + j] == lists[i][j]
    ensures Flatten(lists)[..|Flatten(lists[..i])| + j] == Flatten(lists[..i]) + lists[i][..j]
  {
    var before, list := Flatten(lists[..i]), lists[i];
    FlattenPrefix(lists, i + 1);
    FlattenStep(lists, i);
    var all := (before + list) + Flatten(lists[i + 1..]);
    assert Flatten(lists) == all;
    assert all[..|before| + j] == before + list[..j];
  }

  /** Growing a prefix of a list by one attribute. */
  lemma TakeSnoc<T>(s: seq<T>, j: nat)
    requires j < |s|
    ensures s[..j + 1] == s[..j] + [s[j]]
  {
  }

  /** Modifier keywords the generator looks at. */
  datatype Keyword =
    | Public | Private | Protected | Internal
    | Static | Partial | Const | ReadOnly
    | New | Override | Sealed | Virtual

  type Modifiers = set<Keyword>

  datatype AccessorKind = GetAccessor | SetAccessor | InitAccessor | OtherAccessor

  datatype Accessor = Accessor(kind: AccessorKind, modifiers: Modifiers, hasBody: bool, hasExpressionBody: bool)

  /** A property declaration: `accessors` is `None` for `T P => e;` forms. */
  datatype PropertyDecl = PropertyDecl(
    name: string,
    typeText: string,
    modifiers: Modifiers,
    attributeLists: seq<AttributeList>,
    accessors: Option<seq<Accessor>>,
    hasExpressionBody: bool,
    loc: Location)

  datatype Declarator = Declarator(name: string, loc: Location)

  datatype FieldDecl = FieldDecl(
    typeText: string,
    modifiers: Modifiers,
    attributeLists: seq<AttributeList>,
    declarators: seq<Declarator>,
    loc: Location)

  /** A method declaration: its name, the text of each parameter's type, its location. */
  datatype MethodDecl = MethodDecl(name: string, paramTypes: seq<string>, loc: Location)

  datatype Member = Prop(prop: PropertyDecl) | Field(field: FieldDecl) | Method(decl: MethodDecl) | OtherMember

  /** One enclosing syntax node on the way out to the compilation unit:
      a member declaration (a type, a namespace, ...), the unit itself, or
      any other node. */
  datatype Scope =
    | MemberScope(isTypeDecl: bool, attributeLists: seq<AttributeList>)
    | UnitScope(attributeLists: seq<AttributeList>)
    | OtherScope

  /** A base type as the symbol reports it: containing namespace text (`None`
      for no namespace) and simple name. */
  datatype BaseType = BaseType(ns: Option<string>, name: string)

  /** A type declaration with the facts the generator asks the compiler for. */
  datatype TypeDecl = TypeDecl(
    name: string,
    ns: Option<string>,
    isClassDecl: bool,
    modifiers: Modifiers,
    attributeLists: seq<AttributeList>,
    members: seq<Member>,
    bases: seq<BaseType>,
    parents: seq<Scope>,
    usingsText: string,
    identifierLoc: Location)

  datatype SyntaxNode = TypeNode(decl: TypeDecl) | OtherNode
}
