/** The decisions of the category controller: the case-insensitive name
    check of `createCategory` and the replace-all update of
    `updateCategory`. The name check is the anchored pattern `^name$` with
    the `i` flag, read as equality ignoring case for names without pattern
    characters. */
module Categories {
  import opened Common
  import opened Models
  import opened Collections

  const NameRequired := "Category name is required."
  const NameTaken := "Category with this name already exists."
  const CreateFailed := "Server error while creating category."
  const CategoryNotFound := "Category not found."

  /** `Category.findOne({ name: { $regex: ^name$, $options: 'i' } })` finds one. */
  predicate TakenIgnoringCase(categories: Collection<Category>, name: string) {
    exists id :: id in categories.docs && EqualsIgnoreCase(categories.docs[id].name, name)
  }

  /** The unique index on `name`: another category already has exactly it. */
  predicate TakenExactly(categories: Collection<Category>, name: string, except: Id) {
    exists id :: id in categories.docs && id != except && categories.docs[id].name == name
  }

  /** No two categories share a name exactly (the unique index). */
  predicate UniqueNames(categories: Collection<Category>) {
    forall a, b ::
      (a in categories.docs && b in categories.docs && categories.docs[a].name == categories.docs[b].name)
      ==> a == b
  }

  /** No two categories share a name ignoring case. */
  predicate UniqueNamesIgnoringCase(categories: Collection<Category>) {
    forall a, b ::
      (a in categories.docs && b in categories.docs
       && EqualsIgnoreCase(categories.docs[a].name, categories.docs[b].name))
      ==> a == b
  }

  /** `createCategory` as written: the duplicate check matches the name as
      sent, but the stored name is trimmed. */
  function CreateAsWritten(categories: Collection<Category>, name: Option<string>, subs: Option<seq<string>>, newId: Id)
    : (r: Reply<Category>)
    ensures !Truthy(name) ==> r == Err(400, NameRequired)
    ensures Truthy(name) && TakenIgnoringCase(categories, name.value) ==> r == Err(400, NameTaken)
    ensures r.Ok? ==> r.value == NewCategory(newId, name.value, if subs.Some? then subs.value else [])
  {
    if !Truthy(name) then Err(400, NameRequired)
    else if TakenIgnoringCase(categories, name.value) then Err(400, NameTaken)
    else
      var c := NewCategory(newId, name.value, if subs.Some? then subs.value else []);
      if !CategorySchemaValid(c) || TakenExactly(categories, c.name, newId) then Err(500, CreateFailed)
      else Ok(201, c)
  }

  /** A name sent with a trailing space passes the check against a stored
      name that differs from it only in case, and is stored trimmed: two
      categories then share a name ignoring case ("Shoes " against "shoes"
      is one such input). */
  lemma CreateAsWrittenAdmitsCaseDuplicate(existing: Category, name: string, newId: Id)
    requires CategorySchemaValid(existing) && newId != existing.id
    requires name != [] && !IsSpace(name[0]) && !IsSpace(name[|name| - 1])
    requires EqualsIgnoreCase(name, existing.name) && name != existing.name
    ensures var before := Collection([existing.id], map[existing.id := existing]);
      var r := CreateAsWritten(before, Some(name + " "), None, newId);
      && UniqueNamesIgnoringCase(before)
      && r.Ok? && r.value.name == name
      && EqualsIgnoreCase(r.value.name, existing.name)
  {
    SingleLookups(existing, name + " ", newId);
    SingleLookups(existing, name, newId);
    assert !EqualsIgnoreCase(existing.name, name + " ") by {
      assert |Lower(name + " ")| != |Lower(existing.name)|;
    }
    TrimTrailingSpace(name);
    CreateAsWrittenOk(Collection([existing.id], map[existing.id := existing]), name + " ", newId);
  }

  /** A sent name that the check does not find, and whose trim is non-empty
      and not stored exactly, is saved. */
  lemma CreateAsWrittenOk(categories: Collection<Category>, name: string, newId: Id)
    requires name != "" && !TakenIgnoringCase(categories, name)
    requires Trim(name) != "" && !TakenExactly(categories, Trim(name), newId)
    ensures CreateAsWritten(categories, Some(name), None, newId) == Ok(201, NewCategory(newId, name, []))
  {
  }

  /** The two lookups over a collection of one category, and the unique
      index there. */
  lemma SingleLookups(c: Category, name: string, except: Id)
    ensures var single := Collection([c.id], map[c.id := c]);
      && (TakenIgnoringCase(single, name) <==> EqualsIgnoreCase(c.name, name))
      && (TakenExactly(single, name, except) <==> c.id != except && c.name == name)
      && UniqueNamesIgnoringCase(single)
  {
    var single := Collection([c.id], map[c.id := c]);
    assert c.id in single.docs && single.docs[c.id] == c;
  }

  /** `createCategory` checking the name as it will be stored: a created
      category clashes with no existing name, whatever the case. */
  function Create(categories: Collection<Category>, name: Option<string>, subs: Option<seq<string>>, newId: Id)
    : (r: Reply<Category>)
    ensures !Truthy(name) ==> r == Err(400, NameRequired)
    ensures Truthy(name) && TakenIgnoringCase(categories, Trim(name.value)) ==> r == Err(400, NameTaken)
    ensures r.Err? ==> r == Err(400, NameRequired) || r == Err(400, NameTaken) || r == Err(500, CreateFailed)
    ensures r.Err? && r.status == 400 ==> !Truthy(name) || TakenIgnoringCase(categories, Trim(name.value))
    ensures r.Ok? <==>
      && Truthy(name) && !TakenIgnoringCase(categories, Trim(name.value))
      && CategorySchemaValid(NewCategory(newId, name.value, if subs.Some? then subs.value else []))
    ensures r.Ok? ==> && r.status == 201 && r.value.id == newId && CategorySchemaValid(r.value)
                      && r.value.name == Trim(name.value)
                      && r.value.subCategories == SubCategoriesOf(if subs.Some? then subs.value else [])
                      && !TakenIgnoringCase(categories, r.value.name)
  {
    if !Truthy(name) then Err(400, NameRequired)
    else if TakenIgnoringCase(categories, Trim(name.value)) then Err(400, NameTaken)
    else
      var c := NewCategory(newId, name.value, if subs.Some? then subs.value else []);
      if !CategorySchemaValid(c) then Err(500, CreateFailed)
      else Ok(201, c)
  }

  /** A category created by `Create` joins without two names matching
      ignoring case (and so without two equal names). */
  lemma CreateKeepsNamesUnique(categories: Collection<Category>, name: Option<string>, subs: Option<seq<string>>, newId: Id)
    requires Collections.Valid(categories) && newId !in categories.docs
    requires UniqueNamesIgnoringCase(categories)
    requires Create(categories, name, subs, newId).Ok?
    ensures var after := Insert(categories, newId, Create(categories, name, subs, newId).value);
      UniqueNamesIgnoringCase(after) && UniqueNames(after)
  {
    var c := Create(categories, name, subs, newId).value;
    InsertFreeNameKeepsUnique(categories, newId, c);
  }

  /** A category whose name clashes with none, ignoring case, joins
      without breaking uniqueness. */
  lemma InsertFreeNameKeepsUnique(categories: Collection<Category>, newId: Id, c: Category)
    requires Collections.Valid(categories) && newId !in categories.docs
    requires UniqueNamesIgnoringCase(categories) && !TakenIgnoringCase(categories, c.name)
    ensures var after := Insert(categories, newId, c);
      UniqueNamesIgnoringCase(after) && UniqueNames(after)
  {
    var after := Insert(categories, newId, c);
    forall a, b | a in after.docs && b in after.docs && EqualsIgnoreCase(after.docs[a].name, after.docs[b].name)
      ensures a == b
    {
      if a == newId && b != newId {
        assert false;
      }
    }
  }

  /** The assignments of `updateCategory`: `name || category.name` (the
      setter trims a new name); the whole sub-category list replaced when
      one is sent. */
  function Renamed(c: Category, name: Option<string>, subs: Option<seq<string>>): (d: Category)
    ensures d.id == c.id
    ensures d.name == (if Truthy(name) then Trim(name.value) else c.name)
    ensures subs.Some? ==> d.subCategories == SubCategoriesOf(subs.value)
    ensures subs.None? ==> d.subCategories == c.subCategories
  {
    c.(name := if Truthy(name) then Trim(name.value) else c.name)
     .(subCategories := if subs.Some? then SubCategoriesOf(subs.value) else c.subCategories)
  }

  /** Sending a list keeps none of the old sub-categories: the new list is
      exactly the names sent, in their order. */
  lemma RenamedReplacesAll(c: Category, subs: seq<string>)
    requires forall k :: 0 <= k < |subs| ==> Trim(subs[k]) == subs[k]
    ensures |Renamed(c, None, Some(subs)).subCategories| == |subs|
    ensures forall k :: 0 <= k < |subs| ==> Renamed(c, None, Some(subs)).subCategories[k].name == subs[k]
    ensures Renamed(c, None, Some(subs)).name == c.name
  {
  }

  /** The update only meets the exact-match index: renaming a category to
      another's name in a different case is accepted. */
  lemma RenameBypassesCaseCheck(a: Category, b: Category, name: string)
    requires a.id != b.id && !EqualsIgnoreCase(a.name, b.name)
    requires name != [] && !IsSpace(name[0]) && !IsSpace(name[|name| - 1])
    requires EqualsIgnoreCase(name, a.name) && name != a.name
    ensures var before := Collection([a.id, b.id], map[a.id := a, b.id := b]);
      var d := Renamed(b, Some(name), None);
      && UniqueNamesIgnoringCase(before)
      && d.name == name
      && !TakenExactly(before, d.name, b.id)
      && EqualsIgnoreCase(d.name, a.name)
  {
    TrimUnspaced(name);
    PairUnique(a, b);
    PairFreeFor(a, b, name);
  }

  /** Two categories whose names differ ignoring case keep the names unique. */
  lemma PairUnique(a: Category, b: Category)
    requires a.id != b.id && !EqualsIgnoreCase(a.name, b.name)
    ensures UniqueNamesIgnoringCase(Collection([a.id, b.id], map[a.id := a, b.id := b]))
  {
  }

  /** A name that is not the other category's exact name is free for `b`. */
  lemma PairFreeFor(a: Category, b: Category, name: string)
    requires a.id != b.id && name != a.name
    ensures !TakenExactly(Collection([a.id, b.id], map[a.id := a, b.id := b]), name, b.id)
  {
  }
}
