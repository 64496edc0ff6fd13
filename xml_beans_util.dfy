/** Geronimo's `XmlBeansUtil`: the static registry of XML substitution
    groups (a group name mapped to the set of element names that may stand
    for it), the selection of a container's children by group, and the part
    of `validateDD` that drops the validation errors a registered
    substitution explains and reports the rest. */
module XmlBeansUtil {
  import opened JavaLang

  /** A `javax.xml.namespace.QName`. */
  datatype QName = QName(namespaceUri: string, localPart: string)

  /** An XmlBeans `QNameSet`: either finitely many names, or every name except
      finitely many (which is what `inverse()` of a finite set is). */
  datatype NameSet = Finite(members: set<QName>) | Cofinite(excluded: set<QName>)

  /** `s.contains(q)`. */
  predicate Contains(s: NameSet, q: QName) {
    match s
    case Finite(m) => q in m
    case Cofinite(e) => q !in e
  }

  /** `a.union(b)`. */
  function Union(a: NameSet, b: NameSet): (r: NameSet)
    ensures forall q :: Contains(r, q) <==> Contains(a, q) || Contains(b, q)
  {
    match (a, b)
    case (Finite(x), Finite(y)) => Finite(x + y)
    case (Finite(x), Cofinite(y)) => Cofinite(y - x)
    case (Cofinite(x), Finite(y)) => Cofinite(x - y)
    case (Cofinite(x), Cofinite(y)) => Cofinite(x * y)
  }

  /** `a.intersect(b)`. */
  function Intersect(a: NameSet, b: NameSet): (r: NameSet)
    ensures forall q :: Contains(r, q) <==> Contains(a, q) && Contains(b, q)
  {
    match (a, b)
    case (Finite(x), Finite(y)) => Finite(x * y)
    case (Finite(x), Cofinite(y)) => Finite(x - y)
    case (Cofinite(x), Finite(y)) => Finite(y - x)
    case (Cofinite(x), Cofinite(y)) => Cofinite(x + y)
  }

  /** `a.inverse()`: the complement. */
  function Inverse(a: NameSet): (r: NameSet)
    ensures forall q :: Contains(r, q) <==> !Contains(a, q)
  {
    match a
    case Finite(x) => Cofinite(x)
    case Cofinite(x) => Finite(x)
  }

  /** What `unregisterSubstitutionGroupElements` stores: the old set
      intersected with the complement of the removed one. */
  function Difference(a: NameSet, b: NameSet): NameSet {
    Intersect(a, Inverse(b))
  }

  /** The intersection with the complement is the set difference. */
  lemma DifferenceMembers(a: NameSet, b: NameSet)
    ensures forall q :: Contains(Difference(a, b), q) <==> Contains(a, q) && !Contains(b, q)
  {
    var inv := Inverse(b);
    assert forall q :: Contains(Intersect(a, inv), q) <==> Contains(a, q) && Contains(inv, q);
  }

  /** Removing what was just added leaves exactly the part of the old set the
      addition did not touch. */
  lemma RegisterThenUnregister(a: NameSet, b: NameSet)
    ensures forall q :: Contains(Difference(Union(a, b), b), q) <==> Contains(a, q) && !Contains(b, q)
  {
    DifferenceMembers(Union(a, b), b);
  }

  /** An XML element child, identified by its name. */
  datatype Element = Element(name: QName, content: string)

  /** `container.selectChildren(s)`: the children whose name is in `s`, in
      document order. */
  function SelectChildren(children: seq<Element>, s: NameSet): (r: seq<Element>)
    ensures |r| <= |children|
    ensures forall e :: e in r <==> e in children && Contains(s, e.name)
  {
    if children == [] then []
    else
      var last := children[|children| - 1];
      assert forall e :: e in children <==> e in children[..|children| - 1] || e == last;
      SelectChildren(children[..|children| - 1], s) + (if Contains(s, last.name) then [last] else [])
  }

  /** Selecting from one more child appends it when its name is in the set. */
  lemma SelectChildrenSnoc(a: seq<Element>, c: Element, s: NameSet)
    ensures SelectChildren(a + [c], s) == SelectChildren(a, s) + (if Contains(s, c.name) then [c] else [])
  {
    assert (a + [c])[..|a|] == a;
  }

  /** Selection keeps document order: it distributes over concatenation. */
  lemma {:induction false} SelectChildrenAppend(a: seq<Element>, b: seq<Element>, s: NameSet)
    ensures SelectChildren(a + b, s) == SelectChildren(a, s) + SelectChildren(b, s)
    decreases |b|
  {
    if b == [] {
      assert a + b == a;
    } else {
      var init, last := b[..|b| - 1], b[|b| - 1];
      var x := if Contains(s, last.name) then [last] else [];
      assert b == init + [last];
      assert a + b == (a + init) + [last];
      calc {
        SelectChildren(a + b, s);
        { SelectChildrenSnoc(a + init, last, s); }
        SelectChildren(a + init, s) + x;
        { SelectChildrenAppend(a, init, s); }
        (SelectChildren(a, s) + SelectChildren(init, s)) + x;
        SelectChildren(a, s) + (SelectChildren(init, s) + x);
        { SelectChildrenSnoc(init, last, s); }
        SelectChildren(a, s) + SelectChildren(b, s);
      }
    }
  }

  /** An entry of the validation error list: an `XmlValidationError` with
      its expected names (possibly null) and the offending name, or some
      other error object. `text` is what `toString()` renders. */
  datatype ErrorEntry =
    | ValidationError(expected: Option<seq<QName>>, offending: QName, text: string)
    | OtherError(text: string)

  /** The error message that `validateDD` throws. */
  const ErrorsHeader := "Invalid deployment descriptor: errors:\n\n"

  /** The remaining errors as `validateDD` lists them, each followed by a
      blank line. */
  function Listing(errors: seq<ErrorEntry>): string {
    if errors == [] then [] else Listing(errors[..|errors| - 1]) + errors[|errors| - 1].text + "\n\n"
  }

  lemma {:induction false} ListingAppend(a: seq<ErrorEntry>, b: seq<ErrorEntry>)
    ensures Listing(a + b) == Listing(a) + Listing(b)
    decreases |b|
  {
    if b == [] {
      assert a + b == a;
    } else {
      assert (a + b)[..|a + b| - 1] == a + b[..|b| - 1];
      ListingAppend(a, b[..|b| - 1]);
    }
  }

  /** Listing one more error appends its entry. */
  lemma ListingSnoc(a: seq<ErrorEntry>, e: ErrorEntry)
    ensures Listing(a + [e]) == Listing(a) + e.text + "\n\n"
  {
    assert (a + [e])[..|a|] == a;
  }

  /** Every listed error appears in the listing, in its place: its entry
      stands between the listings of the errors before and after it. */
  lemma ListingShowsEach(pre: seq<ErrorEntry>, e: ErrorEntry, back: seq<ErrorEntry>)
    ensures Listing((pre + [e]) + back) == Listing(pre) + e.text + "\n\n" + Listing(back)
  {
    ListingAppend(pre + [e], back);
    ListingSnoc(pre, e);
  }

  /** The whole message of the thrown `XmlException`. */
  function ErrorReport(remaining: seq<ErrorEntry>, descriptor: string): (r: string)
    ensures |r| >= |ErrorsHeader| && r[..|ErrorsHeader|] == ErrorsHeader
  {
    ErrorsHeader + Listing(remaining) + "Descriptor:\n" + descriptor + "\n"
  }

  /** Around the element that follows `done` in `done + rest`. */
  lemma SplitAround<T>(done: seq<T>, rest: seq<T>)
    requires rest != []
    ensures (done + rest)[|done|] == rest[0]
    ensures (done + rest)[..|done|] == done && (done + rest)[|done| + 1..] == rest[1..]
    ensures done + rest == (done + [rest[0]]) + rest[1..]
  {
    assert rest == [rest[0]] + rest[1..];
  }

  /** The registry itself: the static `substitutionGroups` map. */
  class SubstitutionGroups {
    var groups: map<QName, NameSet>

    constructor ()
      ensures groups == map[]
    {
      groups := map[];
    }

    /** `getQNameSetForSubstitutionGroup(g)`: null for a group never registered. */
    function SetFor(g: QName): (r: Option<NameSet>)
      reads this
      ensures r.None? <==> g !in groups
      ensures r.Some? ==> r.value == groups[g]
    {
      if g in groups then Some(groups[g]) else None
    }

    /** `registerSubstitutionGroupElements(g, s)`: a new group stores `s` as
        given, a known one the union with what it held. */
    method Register(g: QName, s: NameSet)
      modifies this
      ensures g !in old(groups) ==> groups == old(groups)[g := s]
      ensures g in old(groups) ==> groups == old(groups)[g := Union(old(groups)[g], s)]
    {
      var old' := SetFor(g);
      var subs := s;
      if old'.Some? {
        subs := Union(old'.value, subs);
      }
      groups := groups[g := subs];
    }

    /** `unregisterSubstitutionGroupElements(g, s)`: nothing changes for an
        unknown group or a null set; otherwise the key stays and holds the
        difference, which may be empty. */
    method Unregister(g: QName, s: Option<NameSet>)
      modifies this
      ensures g !in old(groups) || s.None? ==> groups == old(groups)
      ensures g in old(groups) && s.Some? ==> groups == old(groups)[g := Difference(old(groups)[g], s.value)]
    {
      var old' := SetFor(g);
      if old'.Some? && s.Some? {
        var difference := Intersect(old'.value, Inverse(s.value));
        groups := groups[g := difference];
      }
    }

    /** `selectSubstitutionGroupElements(g, container)`: no elements for a
        group never registered, else the children named in its set. */
    function Select(g: QName, children: seq<Element>): (r: seq<Element>)
      reads this
      ensures g !in groups ==> r == []
      ensures g in groups ==> forall e :: e in r <==> e in children && Contains(groups[g], e.name)
      ensures g in groups ==> r == SelectChildren(children, groups[g])
    {
      match SetFor(g)
      case None => []
      case Some(s) => SelectChildren(children, s)
    }

    /** An error is explained when it is a validation error whose offending
        name is in the registered set of one of its expected names. */
    ghost predicate Explained(e: ErrorEntry)
      reads this
    {
      e.ValidationError? && e.expected.Some? &&
      exists j :: 0 <= j < |e.expected.value| && e.expected.value[j] in groups &&
                  Contains(groups[e.expected.value[j]], e.offending)
    }

    /** The errors that are not explained, in their original order. */
    ghost function Unexplained(errors: seq<ErrorEntry>): seq<ErrorEntry>
      reads this
    {
      if errors == [] then []
      else Unexplained(errors[..|errors| - 1]) +
           (if Explained(errors[|errors| - 1]) then [] else [errors[|errors| - 1]])
    }

    /** An error survives the filter exactly when it is not explained. */
    lemma {:induction false} UnexplainedMembers(errors: seq<ErrorEntry>)
      ensures forall e :: e in Unexplained(errors) <==> e in errors && !Explained(e)
      decreases |errors|
    {
      if errors != [] {
        var init := errors[..|errors| - 1];
        UnexplainedMembers(init);
        assert forall e :: e in errors <==> e in init || e == errors[|errors| - 1];
      }
    }

    /** Filtering keeps the relative order: it distributes over concatenation. */
    lemma {:induction false} UnexplainedAppend(a: seq<ErrorEntry>, b: seq<ErrorEntry>)
      ensures Unexplained(a + b) == Unexplained(a) + Unexplained(b)
      decreases |b|
    {
      if b == [] {
        assert a + b == a;
      } else {
        assert (a + b)[..|a + b| - 1] == a + b[..|b| - 1];
        UnexplainedAppend(a, b[..|b| - 1]);
      }
    }

    /** The inner loop over the expected names, with its `break`. */
    method IsExplained(e: ErrorEntry) returns (b: bool)
      ensures b == Explained(e)
    {
      if e.OtherError? || e.expected.None? {
        return false;
      }
      var expected := e.expected.value;
      var j := 0;
      while j < |expected|
        invariant 0 <= j <= |expected|
        invariant forall i :: 0 <= i < j ==> !(expected[i] in groups && Contains(groups[expected[i]], e.offending))
      {
        var substitutions := SetFor(expected[j]);
        if substitutions.Some? && Contains(substitutions.value, e.offending) {
          return true;
        }
        j := j + 1;
      }
      return false;
    }

    /** One more error examined: it is kept exactly when not explained. */
    lemma UnexplainedStep(errors: seq<ErrorEntry>, n: nat)
      requires n < |errors|
      ensures Unexplained(errors[..n + 1]) ==
              Unexplained(errors[..n]) + (if Explained(errors[n]) then [] else [errors[n]])
    {
      assert errors[..n + 1][..n] == errors[..n];
    }

    /** What one round of the removal loop relies on: the error under the
        cursor is the next one of the original list, and removing it (when
        explained) or stepping over it (when not) keeps the loop invariant. */
    lemma RemovalStep(errors: seq<ErrorEntry>, n: nat, es: seq<ErrorEntry>, i: nat)
      requires n <= |errors| && i == |Unexplained(errors[..n])| && es == Unexplained(errors[..n]) + errors[n..]
      requires i < |es|
      ensures n < |errors| && es[i] == errors[n]
      ensures Explained(errors[n]) ==>
                es[..i] + es[i + 1..] == Unexplained(errors[..n + 1]) + errors[n + 1..] &&
                i == |Unexplained(errors[..n + 1])|
      ensures !Explained(errors[n]) ==>
                es == Unexplained(errors[..n + 1]) + errors[n + 1..] && i + 1 == |Unexplained(errors[..n + 1])|
    {
      var done := Unexplained(errors[..n]);
      SplitAround(done, errors[n..]);
      assert errors[n..][0] == errors[n] && errors[n..][1..] == errors[n + 1..];
      UnexplainedStep(errors, n);
    }

    /** The iterator loop of `validateDD`: every explained error is removed
        from the list in place. */
    method RemoveExplained(errors: seq<ErrorEntry>) returns (es: seq<ErrorEntry>)
      ensures es == Unexplained(errors)
    {
      es := errors;
      var i := 0;
      ghost var n := 0;
      while i < |es|
        invariant 0 <= n <= |errors|
        invariant i == |Unexplained(errors[..n])|
        invariant es == Unexplained(errors[..n]) + errors[n..]
        decreases |errors| - n
      {
        es, i := VisitError(errors, n, es, i);
        n := n + 1;
      }
      assert errors[..|errors|] == errors;
    }

    /** One round of the iterator: `iterator.remove()` for an explained
        error, otherwise on to the next one; either way one more error of the
        original list has been examined. */
    method VisitError(ghost errors: seq<ErrorEntry>, ghost n: nat, es: seq<ErrorEntry>, i: nat)
      returns (es': seq<ErrorEntry>, i': nat)
      requires n <= |errors| && i == |Unexplained(errors[..n])| && es == Unexplained(errors[..n]) + errors[n..]
      requires i < |es|
      ensures n < |errors|
      ensures i' == |Unexplained(errors[..n + 1])| && es' == Unexplained(errors[..n + 1]) + errors[n + 1..]
    {
      RemovalStep(errors, n, es, i);
      var explained := IsExplained(es[i]);
      if explained {
        es', i' := es[..i] + es[i + 1..], i;
      } else {
        es', i' := es, i + 1;
      }
    }

    /** The message `validateDD` builds by appending to its buffer. */
    method BuildReport(remaining: seq<ErrorEntry>, descriptor: string) returns (buf: string)
      ensures buf == ErrorReport(remaining, descriptor)
    {
      buf := ErrorsHeader;
      var i := 0;
      while i < |remaining|
        invariant 0 <= i <= |remaining|
        invariant buf == ErrorsHeader + Listing(remaining[..i])
      {
        assert remaining[..i + 1][..i] == remaining[..i];
        buf := buf + remaining[i].text + "\n\n";
        i := i + 1;
      }
      assert remaining[..i] == remaining;
      buf := buf + "Descriptor:\n" + descriptor + "\n";
    }

    /** `validateDD(dd)`, given the verdict of `dd.validate()` and the errors
        it reported: it throws exactly when the descriptor is invalid and
        some error is not explained, with every such error in the message. */
    method ValidateDD(valid: bool, errors: seq<ErrorEntry>, descriptor: string) returns (r: Result<()>)
      ensures r.Thrown? <==> !valid && Unexplained(errors) != []
      ensures r.Thrown? ==> r.exception == XmlException(ErrorReport(Unexplained(errors), descriptor))
    {
      if valid {
        return Ok(());
      }
      var remaining := RemoveExplained(errors);
      if remaining != [] {
        var message := BuildReport(remaining, descriptor);
        return Thrown(XmlException(message));
      }
      return Ok(());
    }
  }
}
