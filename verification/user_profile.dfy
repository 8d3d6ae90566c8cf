/**
 * The profile form of client/src/pages/UserProfilePage.jsx: the form state
 * loaded from the stored profile with its defaults, the input handler that
 * understands `parent.child` names, the category and price-range
 * preferences, and the password-change validation. The form is the plain
 * object React holds; the requests themselves are left to the caller.
 */
module UserProfile {
  import opened Wrappers
  import opened Text
  import opened Js
  import opened Selection
  import Auth

  /** Where an input's value goes: a top-level field, or one child of a nested object. */
  datatype Path = Top(key: string) | Nested(parent: string, child: string)

  /** The first field a path writes. */
  function Head(p: Path): string {
    if p.Top? then p.key else p.parent
  }

  /**
   * How an input name is read: a name with a dot is `parent.child` (the
   * first two dot-separated pieces; anything after a second dot is ignored),
   * any other name is a top-level field.
   */
  function PathOf(name: string): (p: Path)
    ensures p.Top? <==> '.' !in name
    ensures p.Top? ==> p.key == name
    ensures p.Nested? ==> '.' !in p.parent && '.' !in p.child
  {
    if '.' in name then
      SplitWithSeparator(name, '.');
      var parts := Split(name, '.');
      Nested(parts[0], parts[1])
    else Top(name)
  }

  /** What the form shows for a path: `form[key]`, or `form[parent][child]`. */
  function FieldValue(form: Object, p: Path): Value {
    match p
    case Top(k) => Get(form, k)
    case Nested(parent, child) => Prop(Get(form, parent), child)
  }

  /**
   * `handleInputChange`: a dotted name replaces the parent with a copy of it
   * in which only the child is set; any other name sets that one field.
   */
  function InputChange(form: Object, name: string, value: string): (r: Object)
    ensures r.Keys == form.Keys + {Head(PathOf(name))}
    ensures forall k :: k in form && k != Head(PathOf(name)) ==> r[k] == form[k]
    ensures PathOf(name).Nested? ==> var p := PathOf(name);
      && r[p.parent].Obj?
      && r[p.parent].fields.Keys == Auth.Spread(Get(form, p.parent)).Keys + {p.child}
      && forall c :: c in Auth.Spread(Get(form, p.parent)) && c != p.child ==>
           r[p.parent].fields[c] == Auth.Spread(Get(form, p.parent))[c]
  {
    match PathOf(name)
    case Top(k) => form[k := Str(value)]
    case Nested(parent, child) => form[parent := Obj(Auth.Spread(Get(form, parent))[child := Str(value)])]
  }

  /** Two paths that write disjoint places: different top-level fields, or different children of one parent. */
  predicate Apart(p: Path, q: Path) {
    Head(p) != Head(q) || (p.Nested? && q.Nested? && p.parent == q.parent && p.child != q.child)
  }

  /**
   * The form shows what was typed into an input, and every input whose path
   * lies apart from it keeps showing what it showed.
   */
  lemma InputChangeReadBack(form: Object, name: string, value: string, other: Path)
    ensures FieldValue(InputChange(form, name, value), PathOf(name)) == Str(value)
    ensures Apart(PathOf(name), other) && !Get(form, Head(other)).Arr? && !Get(form, Head(other)).Str? ==>
      FieldValue(InputChange(form, name, value), other) == FieldValue(form, other)
  {
    var r := InputChange(form, name, value);
    if Apart(PathOf(name), other) && Head(PathOf(name)) == Head(other) {
      var p := PathOf(name);
      assert Prop(Get(r, p.parent), other.child) == Prop(Obj(Auth.Spread(Get(form, p.parent))), other.child);
    }
  }

  /** Typing the same value into the same input twice is typing it once. */
  lemma InputChangeIdempotent(form: Object, name: string, value: string)
    ensures InputChange(InputChange(form, name, value), name, value) == InputChange(form, name, value)
  {
    if PathOf(name).Nested? {
      var p := PathOf(name);
      var m := Auth.Spread(Get(form, p.parent))[p.child := Str(value)];
      var r := InputChange(form, name, value);
      assert Auth.Spread(Get(r, p.parent)) == m;
      assert m[p.child := Str(value)] == m;
      assert r[p.parent := Obj(m)] == r;
    }
  }

  /** The five fields of the address. */
  const AddressKeys: set<string> := {"street", "city", "state", "zipCode", "country"}

  /** `address?.field || ''` for each address field. */
  function AddressOf(address: Value): (m: Object)
    ensures m.Keys == AddressKeys
    ensures forall k :: k in m ==> Truthy(m[k]) || m[k] == Str("")
    ensures forall k :: k in AddressKeys && Truthy(Prop(address, k)) ==> m[k] == Prop(address, k)
    ensures forall k :: k in AddressKeys && !Truthy(Prop(address, k)) ==> m[k] == Str("")
  {
    map k | k in AddressKeys :: Or(Prop(address, k), Str(""))
  }

  /**
   * The preferences: the stored categories or `[]`, and a price range whose
   * bounds are the stored ones unless falsy, 0 and 1000 otherwise.
   */
  function PreferencesOf(prefs: Value): (m: Object)
    ensures m.Keys == {"categories", "priceRange"}
    ensures m["priceRange"].Obj? && m["priceRange"].fields.Keys == {"min", "max"}
    ensures var range := m["priceRange"].fields;
      && (Truthy(Prop(Prop(prefs, "priceRange"), "max")) ==> range["max"] == Prop(Prop(prefs, "priceRange"), "max"))
      && (!Truthy(Prop(Prop(prefs, "priceRange"), "max")) ==> range["max"] == Num(1000))
      && (Truthy(Prop(Prop(prefs, "priceRange"), "min")) ==> range["min"] == Prop(Prop(prefs, "priceRange"), "min"))
      && (!Truthy(Prop(Prop(prefs, "priceRange"), "min")) ==> range["min"] == Num(0))
    ensures Truthy(Prop(prefs, "categories")) ==> m["categories"] == Prop(prefs, "categories")
    ensures !Truthy(Prop(prefs, "categories")) ==> m["categories"] == Arr([])
  {
    var range := Prop(prefs, "priceRange");
    map["categories" := Or(Prop(prefs, "categories"), Arr([])),
        "priceRange" := Obj(map["min" := Or(Prop(range, "min"), Num(0)), "max" := Or(Prop(range, "max"), Num(1000))])]
  }

  /**
   * The form filled from a fetched profile: each field the stored one or its
   * default. A `null` or `undefined` profile throws on `userData.name` (the
   * page catches it and keeps its form).
   */
  function LoadProfile(userData: Value): (r: Result<Object, Thrown>)
    ensures r.Err? <==> userData.Undefined? || userData.Null?
    ensures r.Ok? ==> (r.value.Keys == {"name", "email", "address", "preferences"}
      && r.value["address"] == Obj(AddressOf(Prop(userData, "address")))
      && r.value["preferences"] == Obj(PreferencesOf(Prop(userData, "preferences"))))
    ensures r.Ok? && Truthy(Prop(userData, "name")) ==> r.value["name"] == Prop(userData, "name")
    ensures r.Ok? && !Truthy(Prop(userData, "name")) ==> r.value["name"] == Str("")
    ensures r.Ok? && Truthy(Prop(userData, "email")) ==> r.value["email"] == Prop(userData, "email")
    ensures r.Ok? && !Truthy(Prop(userData, "email")) ==> r.value["email"] == Str("")
  {
    if userData.Undefined? || userData.Null? then Err(TypeError)
    else Ok(map["name" := Or(Prop(userData, "name"), Str("")), "email" := Or(Prop(userData, "email"), Str("")),
                "address" := Obj(AddressOf(Prop(userData, "address"))),
                "preferences" := Obj(PreferencesOf(Prop(userData, "preferences")))])
  }

  /** A stored maximum price of 0 is falsy and comes back as the default 1000. */
  lemma ZeroMaxBecomesDefault(userData: Value)
    requires userData.Obj?
    requires Prop(Prop(Prop(userData, "preferences"), "priceRange"), "max") == Num(0)
    ensures Prop(Prop(Obj(LoadProfile(userData).value), "preferences"), "priceRange") == Obj(map["min" := Or(Prop(Prop(Prop(userData, "preferences"), "priceRange"), "min"), Num(0)), "max" := Num(1000)])
  {
  }

  /** Loading the form's own contents again gives the same form: the defaults are a fixed point. */
  lemma LoadProfileStable(userData: Value)
    requires LoadProfile(userData).Ok?
    ensures LoadProfile(Obj(LoadProfile(userData).value)) == LoadProfile(userData)
  {
    var f := LoadProfile(userData).value;
    var address := Prop(userData, "address");
    var prefs := Prop(userData, "preferences");
    assert AddressOf(Obj(AddressOf(address))) == AddressOf(address);
    var range := Prop(prefs, "priceRange");
    assert Prop(Obj(PreferencesOf(prefs)), "priceRange") == Obj(map["min" := Or(Prop(range, "min"), Num(0)), "max" := Or(Prop(range, "max"), Num(1000))]);
    assert PreferencesOf(Obj(PreferencesOf(prefs))) == PreferencesOf(prefs);
  }

  /** The empty form the page starts with is what an empty profile loads as. */
  lemma InitialIsEmptyProfile()
    ensures LoadProfile(Obj(map[])).Ok?
    ensures var f := LoadProfile(Obj(map[])).value;
      && f["name"] == Str("") && f["email"] == Str("")
      && (forall k :: k in AddressKeys ==> AddressOf(Prop(Obj(map[]), "address"))[k] == Str(""))
      && PreferencesOf(Undefined)["categories"] == Arr([])
      && PreferencesOf(Undefined)["priceRange"] == Obj(map["min" := Num(0), "max" := Num(1000)])
  {
  }

  /**
   * `handleCategoryToggle(category)`: a category already in the list is
   * removed (every copy), any other is appended, and every other preference
   * and field is kept. A string list behaves as a string does: `includes`
   * finds substrings, a present one then fails on `filter`, an absent one is
   * appended to the string's characters. Any other list, or no preferences,
   * throws.
   */
  function CategoryToggle(form: Object, category: string): (r: Result<Object, Thrown>)
    ensures r.Ok? ==> (r.value.Keys == form.Keys + {"preferences"}
      && (forall k :: k in form && k != "preferences" ==> r.value[k] == form[k]))
    ensures r.Err? <==> !Categories(form).Arr? && !(Categories(form).Str? && !Contains(Categories(form).s, category))
    ensures Categories(form).Arr? ==> var items := Categories(form).items;
      && Prefs(r.value).Keys == Prefs(form).Keys
      && (forall k :: k in Prefs(form) && k != "categories" ==> Prefs(r.value)[k] == Prefs(form)[k])
      && Categories(r.value).Arr?
      && (Str(category) in items ==> Categories(r.value).items == Without(items, Str(category)))
      && (Str(category) !in items ==> Categories(r.value).items == items + [Str(category)])
  {
    var prefs := Get(form, "preferences");
    match Prop(prefs, "categories")
    case Arr(items) =>
      var next := if Str(category) in items then Without(items, Str(category)) else items + [Str(category)];
      Ok(form["preferences" := Obj(prefs.fields["categories" := Arr(next)])])
    case Str(s) =>
      if Contains(s, category) then Err(TypeError)
      else
        var chars := seq(|s|, i requires 0 <= i < |s| => Str([s[i]]));
        Ok(form["preferences" := Obj(prefs.fields["categories" := Arr(chars + [Str(category)])])])
    case _ => Err(TypeError)
  }

  /** The preferences object's properties (none when it is not an object). */
  function Prefs(form: Object): Object {
    var p := Get(form, "preferences");
    if p.Obj? then p.fields else map[]
  }

  /** `form.preferences.categories`. */
  function Categories(form: Object): Value {
    Prop(Get(form, "preferences"), "categories")
  }

  /** Toggling a category flips whether the list holds it. */
  lemma CategoryToggleFlips(form: Object, category: string)
    requires Categories(form).Arr?
    ensures Str(category) in Categories(CategoryToggle(form, category).value).items
      <==> Str(category) !in Categories(form).items
  {
    WithoutKeepsOthers(Categories(form).items, Str(category), Str(category));
  }

  /** Toggling a category that is not in the list twice gives the form back. */
  lemma CategoryToggleTwice(form: Object, category: string)
    requires Categories(form).Arr? && Str(category) !in Categories(form).items
    ensures CategoryToggle(CategoryToggle(form, category).value, category) == Ok(form)
  {
    var items := Categories(form).items;
    var once := CategoryToggle(form, category).value;
    assert Str(category) in items + [Str(category)];
    UncheckUndoesCheck(items, Str(category));
    var prefs := Get(form, "preferences");
    assert "preferences" in form && prefs.Obj?;
    var added := prefs.fields["categories" := Arr(items + [Str(category)])];
    assert once == form["preferences" := Obj(added)];
    assert added["categories" := Arr(items)] == prefs.fields;
    assert form["preferences" := Obj(prefs.fields)] == form;
    assert Categories(once) == Arr(items + [Str(category)]);
    assert Get(once, "preferences") == Obj(added);
    assert CategoryToggle(once, category) == Ok(once["preferences" := Obj(added["categories" := Arr(items)])]);
    assert once["preferences" := Obj(prefs.fields)] == form;
  }

  /**
   * `handlePriceRangeChange(type, value)`: the named bound becomes
   * `parseInt(value)`; the other bound, the other preferences and the other
   * fields are kept. Without preferences, `prev.preferences.priceRange` throws.
   */
  function PriceRangeChange(form: Object, kind: string, value: string): (r: Result<Object, Thrown>)
    ensures r.Err? <==> Get(form, "preferences").Undefined? || Get(form, "preferences").Null?
    ensures r.Ok? ==> (r.value.Keys == form.Keys + {"preferences"}
      && (forall k :: k in form && k != "preferences" ==> r.value[k] == form[k])
      && Prop(Prop(Get(r.value, "preferences"), "priceRange"), kind) == ParseInt(value)
      && (forall b :: b != kind && b in Auth.Spread(Prop(Get(form, "preferences"), "priceRange")) ==>
            Prop(Prop(Get(r.value, "preferences"), "priceRange"), b) == Auth.Spread(Prop(Get(form, "preferences"), "priceRange"))[b]))
  {
    var prefs := Get(form, "preferences");
    if prefs.Undefined? || prefs.Null? then Err(TypeError)
    else
      var range := Auth.Spread(Prop(prefs, "priceRange"))[kind := ParseInt(value)];
      Ok(form["preferences" := Obj(Auth.Spread(prefs)["priceRange" := Obj(range)])])
  }

  /** The password form's three fields. */
  datatype PasswordForm = PasswordForm(current: string, next: string, confirm: string)

  /** What the page tells the user after a password submission. */
  datatype PasswordNotice = Mismatch | TooShort | Changed | ChangeFailed

  /** The minimum length of a new password, in UTF-16 code units. */
  const MinPasswordLength: nat := 6

  /**
   * The password validation: the new password and its confirmation must
   * agree (checked first), then the new password must have at least six
   * characters; a passing form yields the request body `(currentPassword, newPassword)`.
   */
  function CheckPassword(p: PasswordForm): (r: Result<(string, string), PasswordNotice>)
    ensures r == Err(Mismatch) <==> p.next != p.confirm
    ensures r == Err(TooShort) <==> p.next == p.confirm && Length(p.next) < MinPasswordLength
    ensures r.Ok? <==> p.next == p.confirm && Length(p.next) >= MinPasswordLength
    ensures r.Ok? ==> r.value == (p.current, p.next)
  {
    if p.next != p.confirm then Err(Mismatch)
    else if Length(p.next) < MinPasswordLength then Err(TooShort)
    else Ok((p.current, p.next))
  }

  /** The password form's state after a submission, with the request it made (if any). */
  datatype PasswordState = PasswordState(form: PasswordForm, shown: bool, request: Option<(string, string)>, notice: PasswordNotice)

  /**
   * `handlePasswordChange`: a form that fails validation makes no request
   * and keeps everything; otherwise the request is made, and `accepted`
   * (whether the server answered with success) decides between clearing
   * and hiding the form or keeping it.
   */
  function SubmitPassword(p: PasswordForm, shown: bool, accepted: bool): (r: PasswordState)
    ensures r.request.None? <==> CheckPassword(p).Err?
    ensures r.request.Some? ==> r.request.value == (p.current, p.next)
    ensures r.request.Some? && accepted ==> r.form == PasswordForm("", "", "") && !r.shown
    ensures !(r.request.Some? && accepted) ==> r.form == p && r.shown == shown
  {
    match CheckPassword(p)
    case Err(notice) => PasswordState(p, shown, None, notice)
    case Ok(body) =>
      if accepted then PasswordState(PasswordForm("", "", ""), false, Some(body), Changed)
      else PasswordState(p, shown, Some(body), ChangeFailed)
  }

  /** After a successful change, submitting the cleared form is rejected as too short and makes no request. */
  lemma ClearedFormRejected(p: PasswordForm, shown: bool, accepted: bool, again: bool)
    requires SubmitPassword(p, shown, accepted).notice == Changed
    ensures var s := SubmitPassword(p, shown, accepted);
      SubmitPassword(s.form, s.shown, again) == PasswordState(PasswordForm("", "", ""), false, None, TooShort)
  {
  }
}
