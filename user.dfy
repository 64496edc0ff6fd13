/** Hudson's `User`: the registry that keeps one `User` object per
    (sanitized) id, a user's full name and property list, the clean-up `load`
    does after reading the persisted record, and the rule that a user always
    has every permission on their own record. */
module HudsonUser {
  import opened JavaLang

  type ClassName = string

  /** A `UserProperty` object: the class it was created from, the further
      classes and interfaces it is an instance of, and its configured data. */
  datatype UserProperty = UserProperty(runtimeClass: ClassName, superclasses: set<ClassName>, data: string)

  /** `c.isInstance(p)`. */
  predicate IsInstance(c: ClassName, p: UserProperty) {
    c == p.runtimeClass || c in p.superclasses
  }

  /** The position of the first property in `ps` that is an instance of `c`. */
  function FirstInstance(ps: seq<UserProperty>, c: ClassName): (r: Option<nat>)
    ensures r.Some? ==> r.value < |ps| && IsInstance(c, ps[r.value])
    ensures r.Some? ==> forall k :: 0 <= k < r.value ==> !IsInstance(c, ps[k])
    ensures r.None? ==> forall k :: 0 <= k < |ps| ==> !IsInstance(c, ps[k])
  {
    if ps == [] then None
    else if IsInstance(c, ps[0]) then Some(0)
    else match FirstInstance(ps[1..], c)
      case None => None
      case Some(i) => Some(i + 1)
  }

  /** Appending to a list that already holds an instance of `c` does not
      change which property is the first instance of `c`. */
  lemma FirstInstanceExtends(a: seq<UserProperty>, b: seq<UserProperty>, c: ClassName)
    requires FirstInstance(a, c).Some?
    ensures FirstInstance(a + b, c) == FirstInstance(a, c)
  {
    var i := FirstInstance(a, c).value;
    var ab := a + b;
    assert IsInstance(c, ab[i]);
    assert forall k :: 0 <= k < i ==> ab[k] == a[k];
  }

  // ---------------------------------------------------------------------
  // addProperty

  /** The property list after `addProperty(p)`: the first property that is an
      instance of p's class is taken out, every other property keeps its
      place, and `p` goes last. */
  function Replaced(ps: seq<UserProperty>, p: UserProperty): (r: seq<UserProperty>)
    ensures |r| >= 1 && r[|r| - 1] == p
    ensures FirstInstance(ps, p.runtimeClass).None? ==> r == ps + [p]
    ensures FirstInstance(ps, p.runtimeClass).Some? ==>
              var i := FirstInstance(ps, p.runtimeClass).value;
              |r| == |ps| && r[..i] == ps[..i] && r[i..|r| - 1] == ps[i + 1..]
  {
    match FirstInstance(ps, p.runtimeClass)
    case None => ps + [p]
    case Some(i) => ps[..i] + ps[i + 1..] + [p]
  }

  /** At most one property of `ps` is an instance of `c`. */
  predicate AtMostOneInstance(ps: seq<UserProperty>, c: ClassName) {
    forall j, k :: 0 <= j < k < |ps| && IsInstance(c, ps[j]) ==> !IsInstance(c, ps[k])
  }

  /** When the list held at most one instance of p's class, looking that
      class up after `addProperty(p)` finds `p`. */
  lemma AddedPropertyIsFound(ps: seq<UserProperty>, p: UserProperty)
    requires AtMostOneInstance(ps, p.runtimeClass)
    ensures var r := Replaced(ps, p); FirstInstance(r, p.runtimeClass) == Some(|r| - 1)
  {
    var c := p.runtimeClass;
    var r := Replaced(ps, p);
    forall k | 0 <= k < |r| - 1
      ensures !IsInstance(c, r[k])
    {
      match FirstInstance(ps, c)
      case None =>
        assert r[k] == ps[k];
      case Some(i) =>
        if k < i {
          assert r[k] == r[..i][k] == ps[k];
        } else {
          assert r[k] == r[i..|r| - 1][k - i] == ps[k + 1];
          assert IsInstance(c, ps[i]);
        }
    }
    assert IsInstance(c, r[|r| - 1]);
  }

  /** With two properties of the same class, the second one still shadows a
      newly added property of that class. */
  lemma DuplicateShadowsAddedProperty(c: ClassName)
    ensures var a := UserProperty(c, {}, "a");
            var b := UserProperty(c, {}, "b");
            var p := UserProperty(c, {}, "p");
            Replaced([a, b], p) == [b, p] && FirstInstance([b, p], c) == Some(0)
  {
    var a := UserProperty(c, {}, "a");
    var b := UserProperty(c, {}, "b");
    var p := UserProperty(c, {}, "p");
    assert FirstInstance([a, b], c) == Some(0);
    assert [a, b][1..] == [b];
  }

  // ---------------------------------------------------------------------
  // load: null removal and default properties

  /** The unmarshalled list with the entries that failed to load (null) removed. */
  function NonNull(s: seq<Option<UserProperty>>): (r: seq<UserProperty>)
    ensures |r| <= |s|
    ensures forall p :: p in r <==> Some(p) in s
  {
    if s == [] then []
    else
      assert forall p :: Some(p) in s <==> Some(p) in s[..|s| - 1] || s[|s| - 1] == Some(p);
      NonNull(s[..|s| - 1]) + (if s[|s| - 1].Some? then [s[|s| - 1].value] else [])
  }

  /** Removing nulls keeps the order of what is left. */
  lemma {:induction false} NonNullAppend(a: seq<Option<UserProperty>>, b: seq<Option<UserProperty>>)
    ensures NonNull(a + b) == NonNull(a) + NonNull(b)
    decreases |b|
  {
    if b != [] {
      var b' := b[..|b| - 1];
      assert (a + b)[..|a + b| - 1] == a + b';
      NonNullAppend(a, b');
    } else {
      assert a + b == a;
    }
  }

  /** A `UserPropertyDescriptor` as `load` sees it: the property class and
      what `newInstance(user)` returns for it, which may be null. */
  datatype Descriptor = Descriptor(clazz: ClassName, instance: Option<UserProperty>)

  /** `newInstance` creates an instance of the descriptor's class. */
  predicate WellFormed(d: Descriptor) {
    d.instance.Some? ==> IsInstance(d.clazz, d.instance.value)
  }

  /** One round of the default-instance loop. */
  function WithDefault(ps: seq<UserProperty>, d: Descriptor): seq<UserProperty> {
    if FirstInstance(ps, d.clazz).None? && d.instance.Some? then ps + [d.instance.value] else ps
  }

  /** The whole default-instance loop over the registered descriptors. */
  function WithDefaults(ps: seq<UserProperty>, ds: seq<Descriptor>): seq<UserProperty> {
    if ds == [] then ps else WithDefault(WithDefaults(ps, ds[..|ds| - 1]), ds[|ds| - 1])
  }

  /** The default-instance loop only appends, at most one property per
      descriptor. */
  lemma {:induction false} WithDefaultsExtends(ps: seq<UserProperty>, ds: seq<Descriptor>)
    ensures var r := WithDefaults(ps, ds); |ps| <= |r| <= |ps| + |ds| && r[..|ps|] == ps
    decreases |ds|
  {
    if ds != [] {
      WithDefaultsExtends(ps, ds[..|ds| - 1]);
      var q := WithDefaults(ps, ds[..|ds| - 1]);
      assert WithDefaults(ps, ds)[..|q|] == q;
    }
  }

  /** A property that was loaded is what `getProperty` keeps finding after
      the defaults are added. */
  lemma LoadedPropertiesWin(ps: seq<UserProperty>, ds: seq<Descriptor>, c: ClassName)
    requires FirstInstance(ps, c).Some?
    ensures FirstInstance(WithDefaults(ps, ds), c) == FirstInstance(ps, c)
  {
    WithDefaultsExtends(ps, ds);
    var r := WithDefaults(ps, ds);
    assert r == ps + r[|ps|..];
    FirstInstanceExtends(ps, r[|ps|..], c);
  }

  /** After `load`, every descriptor whose `newInstance` returned a property
      has an instance of its class in the list. */
  lemma {:induction false} WithDefaultsCovers(ps: seq<UserProperty>, ds: seq<Descriptor>)
    requires forall j :: 0 <= j < |ds| ==> WellFormed(ds[j])
    ensures forall j :: 0 <= j < |ds| && ds[j].instance.Some? ==>
              FirstInstance(WithDefaults(ps, ds), ds[j].clazz).Some?
    decreases |ds|
  {
    if ds != [] {
      var init := ds[..|ds| - 1];
      var d := ds[|ds| - 1];
      WithDefaultsCovers(ps, init);
      var q := WithDefaults(ps, init);
      var r := WithDefaults(ps, ds);
      assert r == q || r == q + [d.instance.value];
      forall j | 0 <= j < |ds| && ds[j].instance.Some?
        ensures FirstInstance(r, ds[j].clazz).Some?
      {
        if j < |ds| - 1 {
          assert init[j] == ds[j];
          FirstInstanceExtends(q, r[|q|..], ds[j].clazz);
          assert q + r[|q|..] == r;
        } else if FirstInstance(q, d.clazz).Some? {
          FirstInstanceExtends(q, r[|q|..], d.clazz);
          assert q + r[|q|..] == r;
        } else {
          assert IsInstance(d.clazz, r[|r| - 1]);
        }
      }
    }
  }

  // ---------------------------------------------------------------------
  // Full name and id sanitizing

  /** `Util.fixEmptyAndTrim(s)`: null for null, empty or blank text, and the
      trimmed text otherwise. */
  function FixEmptyAndTrim(s: Option<string>): (r: Option<string>)
    ensures r.None? <==> s.None? || IsBlank(s.value)
    ensures r.Some? ==> r.value == Trim(s.value)
  {
    match s
    case None => None
    case Some(t) =>
      TrimEmptyIffBlank(t);
      if Trim(t) == [] then None else Some(Trim(t))
  }

  /** `get` replaces every '\\' and every '/' of the id with '_'. */
  function Sanitize(id: string): (r: string)
    ensures |r| == |id|
    ensures '\\' !in r && '/' !in r
    ensures forall k :: 0 <= k < |id| ==> r[k] == (if id[k] == '\\' || id[k] == '/' then '_' else id[k])
  {
    Replace(Replace(id, '\\', '_'), '/', '_')
  }

  predicate IsSanitized(id: string) {
    '\\' !in id && '/' !in id
  }

  /** Sanitizing leaves a sanitized id as it is, so sanitizing twice is
      sanitizing once. */
  lemma SanitizeIdempotent(id: string)
    ensures IsSanitized(id) ==> Sanitize(id) == id
    ensures Sanitize(Sanitize(id)) == Sanitize(id)
  {
    var s := Sanitize(id);
    assert forall k :: 0 <= k < |s| ==> Sanitize(s)[k] == s[k];
    if IsSanitized(id) {
      assert forall k :: 0 <= k < |id| ==> s[k] == id[k];
    }
  }

  // ---------------------------------------------------------------------
  // User

  class User {
    const id: string
    var fullName: string
    var properties: seq<UserProperty>

    /** `new User(id)`: the full name defaults to the id, then `load` runs on
        the record read from disk (`storedFullName` and `unmarshalled`, none
        and empty when there is no record) and on the registered descriptors. */
    constructor (id: string, storedFullName: Option<string>, unmarshalled: seq<Option<UserProperty>>,
                 descriptors: seq<Descriptor>)
      ensures this.id == id
      ensures fullName == if storedFullName.Some? then storedFullName.value else id
      ensures properties == WithDefaults(NonNull(unmarshalled), descriptors)
    {
      this.id := id;
      fullName := id;
      properties := [];
      new;
      Load(storedFullName, unmarshalled, descriptors);
    }

    /** `load`: the unmarshalling restores a stored full name and replaces
        the properties with the stored ones; then the entries that failed
        to load are dropped, and a default instance is added for each
        descriptor whose class has no property yet. */
    method Load(storedFullName: Option<string>, unmarshalled: seq<Option<UserProperty>>, descriptors: seq<Descriptor>)
      modifies this`fullName, this`properties
      ensures fullName == if storedFullName.Some? then storedFullName.value else old(fullName)
      ensures properties == WithDefaults(NonNull(unmarshalled), descriptors)
    {
      if storedFullName.Some? {
        fullName := storedFullName.value;
      }
      var kept: seq<UserProperty> := [];
      var i := 0;
      while i < |unmarshalled|
        invariant 0 <= i <= |unmarshalled|
        invariant kept == NonNull(unmarshalled[..i])
        invariant fullName == if storedFullName.Some? then storedFullName.value else old(fullName)
      {
        assert unmarshalled[..i + 1][..i] == unmarshalled[..i];
        if unmarshalled[i].Some? {
          kept := kept + [unmarshalled[i].value];
        }
        i := i + 1;
      }
      assert unmarshalled[..i] == unmarshalled;
      properties := kept;
      var j := 0;
      while j < |descriptors|
        invariant 0 <= j <= |descriptors|
        invariant properties == WithDefaults(kept, descriptors[..j])
        invariant fullName == if storedFullName.Some? then storedFullName.value else old(fullName)
      {
        var d := descriptors[j];
        var existing := GetProperty(d.clazz);
        if existing.None? && d.instance.Some? {
          properties := properties + [d.instance.value];
        }
        assert descriptors[..j + 1][..j] == descriptors[..j];
        j := j + 1;
      }
      assert descriptors[..j] == descriptors;
    }

    /** `getProperty(c)`: the first property that is an instance of `c`, or null. */
    method GetProperty(c: ClassName) returns (r: Option<UserProperty>)
      ensures FirstInstance(properties, c).None? ==> r.None?
      ensures FirstInstance(properties, c).Some? ==> r == Some(properties[FirstInstance(properties, c).value])
    {
      var i := 0;
      while i < |properties|
        invariant 0 <= i <= |properties|
        invariant forall k :: 0 <= k < i ==> !IsInstance(c, properties[k])
      {
        if IsInstance(c, properties[i]) {
          return Some(properties[i]);
        }
        i := i + 1;
      }
      return None;
    }

    /** `addProperty(p)`: the list is copied, the property `getProperty`
        finds for p's class is removed from the copy, `p` is appended and the
        copy replaces the list. */
    method AddProperty(p: UserProperty)
      modifies this`properties
      ensures properties == Replaced(old(properties), p)
    {
      var old' := GetProperty(p.runtimeClass);
      var ps := properties;
      if old'.Some? {
        var i := FirstInstance(ps, p.runtimeClass).value;
        ps := ps[..i] + ps[i + 1..];
      }
      ps := ps + [p];
      properties := ps;
    }

    /** `setFullName(name)`: a null, empty or blank name stands for the id;
        any other name is stored exactly as given, untrimmed. */
    method SetFullName(name: Option<string>)
      modifies this`fullName
      ensures name.None? || IsBlank(name.value) ==> fullName == id
      ensures !(name.None? || IsBlank(name.value)) ==> fullName == name.value
    {
      var n := name;
      if FixEmptyAndTrim(n).None? {
        n := Some(id);
      }
      fullName := n.value;
    }

    /** `getUrl()`: the id below "user/". */
    function Url(): (r: string)
      ensures |r| == 5 + |id| && r[..5] == "user/" && r[5..] == id
    {
      "user/" + id
    }

    /** `getSearchUrl()`: the URL made absolute from the root. */
    function SearchUrl(): (r: string)
      ensures r == "/" + Url()
    {
      "/user/" + id
    }

    /** `compareTo`: users are ordered by their ids. */
    function CompareTo(that: User): int {
      JavaLang.CompareTo(id, that.id)
    }

    /** The permission check of `getACL()`: a user has every permission on
        their own record; for anyone else the base ACL decides. */
    function HasPermission(authenticatedName: string, basePermits: bool): (r: bool)
      ensures authenticatedName == id ==> r
      ensures authenticatedName != id ==> r == basePermits
    {
      authenticatedName == id || basePermits
    }
  }

  /** Users compare equal exactly when their ids are equal, and swapping them
      negates the comparison. */
  lemma CompareUsers(a: User, b: User)
    ensures a.CompareTo(b) == 0 <==> a.id == b.id
    ensures b.CompareTo(a) == -a.CompareTo(b)
  {
    CompareToZeroIffEqual(a.id, b.id);
    CompareToAntisymmetric(a.id, b.id);
  }

  /** User ordering is transitive. */
  lemma CompareUsersTransitive(a: User, b: User, c: User)
    requires a.CompareTo(b) <= 0 && b.CompareTo(c) <= 0
    ensures a.CompareTo(c) <= 0
  {
    CompareToTransitive(a.id, b.id, c.id);
  }

  // ---------------------------------------------------------------------
  // The registry

  /** The static `byName` map that keeps users singleton per id. */
  class Registry {
    var byName: map<string, User>

    /** Every user is registered under its own id, and registered ids are
        sanitized. */
    ghost predicate Valid()
      reads this
    {
      forall k :: k in byName ==> byName[k].id == k && IsSanitized(k)
    }

    constructor ()
      ensures byName == map[] && Valid()
    {
      byName := map[];
    }

    /** `get(id, create)`: null for a null id; otherwise the user registered
        under the sanitized id, or, when there is none, a new user registered
        under it if `create` is set and null if not. `storedFullName`,
        `unmarshalled` and `descriptors` are what the new user's `load` reads. */
    method Get(id: Option<string>, create: bool, storedFullName: Option<string>,
               unmarshalled: seq<Option<UserProperty>>, descriptors: seq<Descriptor>)
      returns (u: Option<User>)
      requires Valid()
      modifies this`byName
      ensures Valid()
      ensures |byName| <= |old(byName)| + 1
      ensures id.None? ==> u.None? && byName == old(byName)
      ensures id.Some? && Sanitize(id.value) in old(byName) ==>
                u == Some(old(byName)[Sanitize(id.value)]) && byName == old(byName)
      ensures id.Some? && Sanitize(id.value) !in old(byName) && !create ==>
                u.None? && byName == old(byName)
      ensures id.Some? && Sanitize(id.value) !in old(byName) && create ==>
                u.Some? && fresh(u.value) && byName == old(byName)[Sanitize(id.value) := u.value] &&
                u.value.id == Sanitize(id.value) &&
                u.value.fullName == (if storedFullName.Some? then storedFullName.value else Sanitize(id.value)) &&
                u.value.properties == WithDefaults(NonNull(unmarshalled), descriptors)
    {
      if id.None? {
        return None;
      }
      var key := Sanitize(id.value);
      if key in byName {
        return Some(byName[key]);
      }
      if !create {
        return None;
      }
      var user := new User(key, storedFullName, unmarshalled, descriptors);
      assert (byName[key := user]).Keys == byName.Keys + {key};
      byName := byName[key := user];
      return Some(user);
    }

    /** `get(id)`, that is `get(id, true)`: never null for a non-null id. */
    method GetOrCreate(id: Option<string>, storedFullName: Option<string>,
                       unmarshalled: seq<Option<UserProperty>>, descriptors: seq<Descriptor>)
      returns (u: Option<User>)
      requires Valid()
      modifies this`byName
      ensures Valid()
      ensures id.None? <==> u.None?
      ensures id.Some? ==> u.value.id == Sanitize(id.value) && Sanitize(id.value) in byName && byName[Sanitize(id.value)] == u.value
      ensures id.Some? && Sanitize(id.value) in old(byName) ==> byName == old(byName)
      ensures |byName| <= |old(byName)| + 1
    {
      u := Get(id, true, storedFullName, unmarshalled, descriptors);
    }

    /** Two lookups whose ids sanitize to the same string return the same
        object, and the second one adds nothing. */
    method LookupTwice(id1: string, id2: string, storedFullName: Option<string>,
                       unmarshalled: seq<Option<UserProperty>>, descriptors: seq<Descriptor>)
      returns (u1: Option<User>, u2: Option<User>)
      requires Valid() && Sanitize(id1) == Sanitize(id2)
      modifies this`byName
      ensures Valid()
      ensures u1.Some? && u1 == u2
      ensures |byName| <= |old(byName)| + 1
    {
      u1 := GetOrCreate(Some(id1), storedFullName, unmarshalled, descriptors);
      u2 := GetOrCreate(Some(id2), storedFullName, unmarshalled, descriptors);
    }
  }
}
