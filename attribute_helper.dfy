/** Finding attributes on a declaration by their written name (AttributeHelper.cs).
    A name is completed with the `Attribute` suffix when it lacks it and then
    compared for exact, ordinal equality; qualification is not resolved. */
module AttributeHelper {
  import opened Wrappers
  import opened Text
  import opened Syntax

  /** The name an attribute usage stands for: `Foo` and `FooAttribute` both mean `FooAttribute`. */
  function NormaliseAttributeName(name: string): string
  {
    if EndsWith(name, "Attribute") then name else name + "Attribute"
  }

  /** The normalised name always carries the suffix, keeps a name that already has it,
      and otherwise extends the written name by exactly the suffix. */
  lemma NormaliseAttributeNameSpec(name: string)
    ensures EndsWith(NormaliseAttributeName(name), "Attribute")
    ensures EndsWith(name, "Attribute") ==> NormaliseAttributeName(name) == name
    ensures !EndsWith(name, "Attribute") ==>
              StartsWith(NormaliseAttributeName(name), name) && |NormaliseAttributeName(name)| == |name| + 9
  {
    if !EndsWith(name, "Attribute") {
      EndsWithConcat(name, "Attribute");
      StartsWithConcat(name, "Attribute");
    }
  }

  lemma NormaliseIdempotent(name: string)
    ensures NormaliseAttributeName(NormaliseAttributeName(name)) == NormaliseAttributeName(name)
  {
  }

  /** Which written names stand for an expected name `T...Attribute`: the name itself and
      the name without the suffix (when that shorter name does not end in the suffix itself). */
  lemma NormaliseMatchesExactly(name: string, expected: string)
    requires EndsWith(expected, "Attribute")
    requires !EndsWith(expected[..|expected| - 9], "Attribute")
    ensures NormaliseAttributeName(name) == expected <==> name == expected || name == expected[..|expected| - 9]
  {
    var short := expected[..|expected| - 9];
    assert expected == short + "Attribute";
    if !EndsWith(name, "Attribute") {
      assert (name + "Attribute")[..|name|] == name;
    }
  }

  predicate NameMatches(attr: Attribute, expected: string) {
    NormaliseAttributeName(attr.name.text) == expected
  }

  /** A usage written with a qualifier (`X.FooAttribute`) never matches an unqualified
      expected name, whatever it refers to. */
  lemma QualifiedNameNeverMatchesShort(attr: Attribute, expected: string)
    requires '.' in attr.name.text && '.' !in expected
    ensures !NameMatches(attr, expected)
  {
    var r := NormaliseAttributeName(attr.name.text);
    var k :| 0 <= k < |attr.name.text| && attr.name.text[k] == '.';
    assert r[k] == '.';
  }

  /** The inner loop of `Find`: the position of the first matching attribute
      of one list, or the list's length when none matches. */
  method FindInList(list: AttributeList, expected: string) returns (j: nat)
    ensures j <= |list|
    ensures forall k :: 0 <= k < j ==> !NameMatches(list[k], expected)
    ensures j < |list| ==> NameMatches(list[j], expected)
  {
    j := 0;
    while j < |list|
      invariant j <= |list|
      invariant forall k :: 0 <= k < j ==> !NameMatches(list[k], expected)
    {
      if NameMatches(list[j], expected) {
        return;
      }
      j := j + 1;
    }
  }

  /** `Find` on a member or on a compilation unit (both overloads have one body):
      the first attribute, in list-then-attribute order, whose name matches. */
  method Find(lists: seq<AttributeList>, expected: string) returns (r: Option<Attribute>)
    ensures r.None? <==> forall a :: a in Flatten(lists) ==> !NameMatches(a, expected)
    ensures r.Some? ==> exists i :: 0 <= i < |Flatten(lists)| && Flatten(lists)[i] == r.value
                                  && NameMatches(r.value, expected)
                                  && forall j :: 0 <= j < i ==> !NameMatches(Flatten(lists)[j], expected)
  {
    ghost var seen: seq<Attribute> := [];
    var i := 0;
    while i < |lists|
      invariant 0 <= i <= |lists|
      invariant seen == Flatten(lists[..i])
      invariant forall k :: 0 <= k < |seen| ==> !NameMatches(seen[k], expected)
    {
      var j := FindInList(lists[i], expected);
      if j < |lists[i]| {
        r := Some(lists[i][j]);
        FlattenAt(lists, i, j);
        NoMatchBefore(Flatten(lists), seen, lists[i][..j], expected);
        return;
      }
      FlattenStep(lists, i);
      seen := seen + lists[i];
      i := i + 1;
    }
    assert lists[..i] == lists;
    r := None;
  }

  /** When `all` begins with two stretches of non-matching attributes, no
      attribute before their joint length matches. */
  lemma NoMatchBefore(all: seq<Attribute>, a: seq<Attribute>, b: seq<Attribute>, expected: string)
    requires |a| + |b| <= |all| && all[..|a| + |b|] == a + b
    requires forall k :: 0 <= k < |a| ==> !NameMatches(a[k], expected)
    requires forall k :: 0 <= k < |b| ==> !NameMatches(b[k], expected)
    ensures forall k :: 0 <= k < |a| + |b| ==> !NameMatches(all[k], expected)
  {
    forall k | 0 <= k < |a| + |b|
      ensures !NameMatches(all[k], expected)
    {
      assert all[k] == all[..|a| + |b|][k];
    }
  }

  /** The attributes of `attrs` whose name matches, in order. */
  function Matching(attrs: seq<Attribute>, expected: string): (r: seq<Attribute>)
  {
    if attrs == [] then []
    else
      var last := attrs[|attrs| - 1];
      Matching(attrs[..|attrs| - 1], expected) + if NameMatches(last, expected) then [last] else []
  }

  /** Filtering keeps exactly the matching attributes and never grows the sequence. */
  lemma {:induction false} MatchingMembers(attrs: seq<Attribute>, expected: string)
    ensures forall a :: a in Matching(attrs, expected) <==> a in attrs && NameMatches(a, expected)
    ensures |Matching(attrs, expected)| <= |attrs|
    decreases |attrs|
  {
    if attrs != [] {
      var init := attrs[..|attrs| - 1];
      MatchingMembers(init, expected);
      assert attrs == init + [attrs[|attrs| - 1]];
    }
  }

  /** Filtering keeps declaration order: matches of a prefix come first. */
  lemma {:induction false} MatchingConcat(a: seq<Attribute>, b: seq<Attribute>, expected: string)
    ensures Matching(a + b, expected) == Matching(a, expected) + Matching(b, expected)
    decreases |b|
  {
    if b == [] {
      assert a + b == a;
    } else {
      var b' := b[..|b| - 1];
      assert (a + b)[..|a + b| - 1] == a + b';
      MatchingConcat(a, b', expected);
    }
  }

  lemma MatchingSnoc(s: seq<Attribute>, x: Attribute, expected: string)
    ensures Matching(s + [x], expected) == Matching(s, expected) + if NameMatches(x, expected) then [x] else []
  {
    assert (s + [x])[..|s|] == s;
  }

  /** `FindAll` on a compilation unit: every matching attribute, in declaration order. */
  method FindAllInUnit(lists: seq<AttributeList>, expected: string) returns (r: seq<Attribute>)
    ensures r == Matching(Flatten(lists), expected)
  {
    r := [];
    ghost var seen: seq<Attribute> := [];
    var i := 0;
    while i < |lists|
      invariant 0 <= i <= |lists|
      invariant seen == Flatten(lists[..i])
      invariant r == Matching(seen, expected)
    {
      var j := 0;
      ghost var before := seen;
      while j < |lists[i]|
        invariant 0 <= j <= |lists[i]|
        invariant seen == before + lists[i][..j]
        invariant r == Matching(seen, expected)
      {
        var attr := lists[i][j];
        MatchingSnoc(seen, attr, expected);
        TakeSnoc(lists[i], j);
        seen := seen + [attr];
        if NameMatches(attr, expected) {
          r := r + [attr];
        }
        j := j + 1;
      }
      assert lists[i][..j] == lists[i];
      FlattenStep(lists, i);
      i := i + 1;
    }
    assert lists[..i] == lists;
  }

  /** `FindAll` on a member by attribute type name: refuses a name that does not end in
      `Attribute` (ArgumentException), otherwise every match in declaration order. */
  method FindAll(lists: seq<AttributeList>, attrName: string) returns (r: Result<seq<Attribute>>)
    ensures r.Err? <==> !EndsWith(attrName, "Attribute")
    ensures r.Err? ==> r.error == Argument("invalid attribute name")
    ensures r.Ok? ==> r.value == Matching(Flatten(lists), attrName)
  {
    if !EndsWith(attrName, "Attribute") {
      return Err(Argument("invalid attribute name"));
    }
    var found := FindAllInUnit(lists, attrName);
    r := Ok(found);
  }
}
