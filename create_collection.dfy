/** Creating or editing a collection (src/components/CreateCollection.tsx):
    the group selection, the two validation errors, and the saved record.
    A fresh id (`Date.now()`) and the current time are parameters. */
module CreateCollection {
  import opened Types
  import opened Seqs
  import opened Text
  import Aggregates

  const NameRequired := "Collection name is required"
  const GroupRequired := "At least one group must be selected"
  const DefaultIcon := "\U{1F4CA}"

  /** The validation errors, in the order they are pushed. */
  function ValidationErrors(name: string, selected: seq<string>): seq<string>
  {
    Errors(Trim(name) == [], |selected| == 0)
  }

  function Errors(nameMissing: bool, groupsMissing: bool): seq<string>
  {
    (if nameMissing then [NameRequired] else []) + (if groupsMissing then [GroupRequired] else [])
  }

  /** The name error is reported exactly for a blank name and first, the group
      error exactly for an empty selection, each at most once, and nothing else. */
  lemma ValidationErrorsSpec(name: string, selected: seq<string>)
    ensures var errs := ValidationErrors(name, selected);
      (NameRequired in errs <==> Blank(name)) &&
      (GroupRequired in errs <==> |selected| == 0) &&
      (forall e :: e in errs ==> e == NameRequired || e == GroupRequired) &&
      Distinct(errs) &&
      (Blank(name) ==> errs[0] == NameRequired)
  {
    TrimEmpty(name);
    ErrorsSpec(Trim(name) == [], |selected| == 0);
  }

  lemma ErrorsSpec(nameMissing: bool, groupsMissing: bool)
    ensures var errs := Errors(nameMissing, groupsMissing);
      (NameRequired in errs <==> nameMissing) &&
      (GroupRequired in errs <==> groupsMissing) &&
      (forall e :: e in errs ==> e == NameRequired || e == GroupRequired) &&
      Distinct(errs) &&
      (nameMissing ==> errs[0] == NameRequired)
  {
    assert NameRequired[0] != GroupRequired[0];
    var errs := Errors(nameMissing, groupsMissing);
    if nameMissing && groupsMissing {
      assert errs == [NameRequired, GroupRequired];
    } else if nameMissing {
      assert errs == [NameRequired];
    } else if groupsMissing {
      assert errs == [GroupRequired];
    } else {
      assert errs == [];
    }
  }

  datatype SubmitResult = Invalid(errors: seq<string>) | SavedCollection(collection: Collection)

  /** `handleSubmit`: the errors when there are any; otherwise the collection
      with the trimmed name, the chosen icon and the selection, keeping the
      edited collection's id (unless empty) and creation time. */
  function Submit(name: string, icon: string, selected: seq<string>, existing: Option<Collection>,
                  freshId: string, now: int): (r: SubmitResult)
    ensures r.Invalid? <==> Blank(name) || |selected| == 0
    ensures r.Invalid? ==> r.errors == ValidationErrors(name, selected) && |r.errors| > 0
    ensures r.SavedCollection? ==>
      var c := r.collection;
      c.name == Trim(name) && c.name != [] && c.icon == Some(icon) && c.groupIds == selected &&
      |c.groupIds| > 0 && c.updatedAt == now &&
      (existing.Some? && existing.value.id != "" ==> c.id == existing.value.id) &&
      (existing.None? || existing.value.id == "" ==> c.id == freshId) &&
      (existing.Some? ==> c.createdAt == existing.value.createdAt) &&
      (existing.None? ==> c.createdAt == now)
  {
    TrimEmpty(name);
    var errs := ValidationErrors(name, selected);
    if |errs| > 0 then Invalid(errs)
    else
      var id := if existing.Some? && existing.value.id != "" then existing.value.id else freshId;
      var createdAt := if existing.Some? then existing.value.createdAt else now;
      SavedCollection(Collection(id, Trim(name), Some(icon), selected, createdAt, now))
  }

  function SelectedId(selected: seq<string>): Group -> bool
  {
    (g: Group) => g.id in selected
  }

  /** `selectedGroups`: the groups whose id is selected, in the order of `groups`. */
  function SelectedGroups(groups: seq<Group>, selected: seq<string>): (r: seq<Group>)
    ensures forall g :: g in r <==> g in groups && g.id in selected
  {
    Filter(groups, SelectedId(selected))
  }

  /** The preview keeps the order of `groups`: a group appended to `groups`
      is appended to the preview exactly when its id is selected. */
  lemma SelectedGroupsKeepsOrder(groups: seq<Group>, g: Group, selected: seq<string>)
    ensures SelectedGroups(groups + [g], selected) == SelectedGroups(groups, selected) + (if g.id in selected then [g] else [])
  {
    FilterSnoc(groups, g, SelectedId(selected));
  }

  /** The groups previewed in the form are the groups the saved collection
      aggregates. */
  lemma SavedIncludesSelected(name: string, icon: string, selected: seq<string>, existing: Option<Collection>,
                              freshId: string, now: int, groups: seq<Group>)
    requires Submit(name, icon, selected, existing, freshId, now).SavedCollection?
    ensures Aggregates.IncludedGroups(Submit(name, icon, selected, existing, freshId, now).collection, groups)
      == SelectedGroups(groups, selected)
  {
    var c := Submit(name, icon, selected, existing, freshId, now).collection;
    Seqs.FilterEquiv(groups, Aggregates.InCollection(c), SelectedId(selected));
  }

  /** The form's state. */
  class CollectionForm {
    var name: string
    var icon: string
    var selectedGroupIds: seq<string>
    var errors: seq<string>

    /** Prefilled from the edited collection, if any. */
    constructor (existing: Option<Collection>)
      ensures name == if existing.Some? then existing.value.name else ""
      ensures icon == if existing.Some? && existing.value.icon.Some? && existing.value.icon.value != ""
                      then existing.value.icon.value else DefaultIcon
      ensures selectedGroupIds == if existing.Some? then existing.value.groupIds else []
      ensures errors == []
    {
      name := if existing.Some? then existing.value.name else "";
      icon := if existing.Some? && existing.value.icon.Some? && existing.value.icon.value != ""
              then existing.value.icon.value else DefaultIcon;
      selectedGroupIds := if existing.Some? then existing.value.groupIds else [];
      errors := [];
    }

    /** `toggleGroupSelection`: toggle the id and clear the errors. */
    method ToggleGroupSelection(id: string)
      modifies this
      ensures selectedGroupIds == Toggled(old(selectedGroupIds), id)
      ensures id in selectedGroupIds <==> id !in old(selectedGroupIds)
      ensures errors == [] && name == old(name) && icon == old(icon)
    {
      ToggledMembership(selectedGroupIds, id);
      selectedGroupIds := Toggled(selectedGroupIds, id);
      errors := [];
    }

    /** `handleSubmit`: show the errors, or hand the collection to the caller. */
    method HandleSubmit(existing: Option<Collection>, freshId: string, now: int) returns (saved: Option<Collection>)
      modifies this
      ensures var r := Submit(old(name), old(icon), old(selectedGroupIds), existing, freshId, now);
        (r.Invalid? ==> saved == None && errors == r.errors) &&
        (r.SavedCollection? ==> saved == Some(r.collection) && errors == old(errors))
      ensures name == old(name) && icon == old(icon) && selectedGroupIds == old(selectedGroupIds)
    {
      var r := Submit(name, icon, selectedGroupIds, existing, freshId, now);
      if r.Invalid? {
        errors := r.errors;
        saved := None;
      } else {
        saved := Some(r.collection);
      }
    }
  }
}
