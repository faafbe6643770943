/** The application shell (src/App.tsx): per-user storage keys, the list of
    known users, saving, loading and migrating the groups and collections,
    and the handlers that create, update, delete and import groups and
    collections. Storage is modelled as a value of the entries under the
    user's keys; the
    confirmation dialog, the clock and `Date.now()` ids are parameters. */
module App {
  import opened Types
  import opened Seqs
  import Aggregates
  import CollectionAggregation

  // ---------------------------------------------------------------- storage keys and users

  const GroupsKey := "expenseGroups"
  const UsersSuffix := "_expenseGroups"

  /** `getUserStorageKey`: the key prefixed with the user's name and `_`
      when someone is logged in. */
  function StorageKey(user: Option<string>, key: string): (k: string)
    ensures user.Some? && user.value != "" ==> k == user.value + "_" + key
    ensures user.None? || user.value == "" ==> k == key
  {
    if user.Some? && user.value != "" then user.value + "_" + key else key
  }

  predicate OccursAt(s: string, pat: string, k: nat)
  {
    k + |pat| <= |s| && s[k..k + |pat|] == pat
  }

  /** The first position at or after `from` where `pat` occurs. */
  function FirstOccurrence(s: string, pat: string, from: nat): (r: Option<nat>)
    ensures r.Some? ==>
      from <= r.value && OccursAt(s, pat, r.value) &&
      forall k :: from <= k < r.value ==> !OccursAt(s, pat, k)
    ensures r.None? ==> forall k :: from <= k ==> !OccursAt(s, pat, k)
    decreases |s| - from
  {
    if from + |pat| > |s| then None
    else if s[from..from + |pat|] == pat then Some(from)
    else FirstOccurrence(s, pat, from + 1)
  }

  /** `s.replace(pat, rep)` with a string pattern: only the first
      occurrence is replaced. */
  function ReplaceFirst(s: string, pat: string, rep: string): (r: string)
    ensures (forall k :: !OccursAt(s, pat, k)) ==> r == s
  {
    match FirstOccurrence(s, pat, 0)
    case None => s
    case Some(k) => s[..k] + rep + s[k + |pat|..]
  }

  predicate EndsWith(s: string, suffix: string)
  {
    |s| >= |suffix| && s[|s| - |suffix|..] == suffix
  }

  /** The user name read from a key: the key with `_expenseGroups` replaced
      by nothing. */
  function Username(key: string): string
  {
    ReplaceFirst(key, UsersSuffix, "")
  }

  /** A key that names a user: non-empty, ending in `_expenseGroups`, and
      leaving a non-empty name. */
  predicate IsUserKey(key: string)
  {
    key != "" && EndsWith(key, UsersSuffix) && Username(key) != ""
  }

  /** The names collected by the loop of `getExistingUsers`, in key order,
      each once. */
  function CollectedUsers(keys: seq<string>): seq<string>
  {
    if |keys| == 0 then []
    else
      var prev := CollectedUsers(keys[..|keys| - 1]);
      var key := keys[|keys| - 1];
      if IsUserKey(key) && Username(key) !in prev then prev + [Username(key)] else prev
  }

  lemma CollectedUsersStep(keys: seq<string>, i: nat)
    requires i < |keys|
    ensures CollectedUsers(keys[..i + 1]) ==
      if IsUserKey(keys[i]) && Username(keys[i]) !in CollectedUsers(keys[..i])
      then CollectedUsers(keys[..i]) + [Username(keys[i])] else CollectedUsers(keys[..i])
  {
    assert keys[..i + 1][..i] == keys[..i];
  }

  /** The collected names are distinct and are exactly the names of the user keys. */
  lemma {:induction false} CollectedUsersSpec(keys: seq<string>)
    ensures Distinct(CollectedUsers(keys))
    ensures forall u :: u in CollectedUsers(keys) <==> exists key :: key in keys && IsUserKey(key) && Username(key) == u
  {
    if |keys| > 0 {
      var n := |keys| - 1;
      CollectedUsersSpec(keys[..n]);
      assert keys == keys[..n] + [keys[n]];
      forall u ensures u in CollectedUsers(keys) <==> exists key :: key in keys && IsUserKey(key) && Username(key) == u {
        if exists key :: key in keys && IsUserKey(key) && Username(key) == u {
          var key :| key in keys && IsUserKey(key) && Username(key) == u;
          if key != keys[n] {
            assert key in keys[..n];
          }
        }
      }
    }
  }

  // JavaScript's default sort compares strings code unit by code unit.

  /** `a <= b` in the default string order: a prefix comes first, otherwise
      the first differing character decides. */
  predicate LexLeq(a: string, b: string)
  {
    |a| == 0 || (|b| > 0 && (a[0] < b[0] || (a[0] == b[0] && LexLeq(a[1..], b[1..]))))
  }

  lemma {:induction false} LexTotal(a: string, b: string)
    ensures LexLeq(a, b) || LexLeq(b, a)
  {
    if |a| > 0 && |b| > 0 && a[0] == b[0] {
      LexTotal(a[1..], b[1..]);
    }
  }

  predicate SortedStrings(s: seq<string>)
  {
    forall i :: 0 <= i < |s| - 1 ==> LexLeq(s[i], s[i + 1])
  }

  function InsertString(x: string, r: seq<string>): (out: seq<string>)
    ensures |out| == |r| + 1
    ensures out[0] == x || (|r| > 0 && out[0] == r[0])
  {
    if |r| == 0 then [x]
    else if LexLeq(x, r[0]) then [x] + r
    else [r[0]] + InsertString(x, r[1..])
  }

  lemma {:induction false} InsertStringPermutes(x: string, r: seq<string>)
    ensures multiset(InsertString(x, r)) == multiset(r) + multiset{x}
  {
    if |r| > 0 && !LexLeq(x, r[0]) {
      InsertStringPermutes(x, r[1..]);
      assert r == [r[0]] + r[1..];
    }
  }

  lemma {:induction false} InsertStringSorted(x: string, r: seq<string>)
    requires SortedStrings(r)
    ensures SortedStrings(InsertString(x, r))
  {
    if |r| > 0 && !LexLeq(x, r[0]) {
      LexTotal(x, r[0]);
      InsertStringSorted(x, r[1..]);
    }
  }

  /** `users.sort()`: insertion sort in the default string order. */
  function SortStrings(s: seq<string>): (r: seq<string>)
    ensures |r| == |s|
  {
    if |s| == 0 then [] else InsertString(s[0], SortStrings(s[1..]))
  }

  lemma SortStringsSpec(s: seq<string>)
    ensures SortedStrings(SortStrings(s))
    ensures multiset(SortStrings(s)) == multiset(s)
  {
    SortStringsSorted(s);
    SortStringsPermutes(s);
  }

  lemma {:induction false} SortStringsSorted(s: seq<string>)
    ensures SortedStrings(SortStrings(s))
  {
    if |s| > 0 {
      SortStringsSorted(s[1..]);
      InsertStringSorted(s[0], SortStrings(s[1..]));
    }
  }

  lemma {:induction false} SortStringsPermutes(s: seq<string>)
    ensures multiset(SortStrings(s)) == multiset(s)
  {
    if |s| > 0 {
      SortStringsPermutes(s[1..]);
      InsertStringPermutes(s[0], SortStrings(s[1..]));
      assert s == [s[0]] + s[1..];
    }
  }

  lemma {:induction false} DistinctCount(t: seq<string>, x: string)
    requires Distinct(t)
    ensures multiset(t)[x] <= 1
  {
    if |t| > 0 {
      assert t == [t[0]] + t[1..];
      DistinctCount(t[1..], x);
      if t[0] == x {
        assert x !in t[1..];
      }
    }
  }

  /** A permutation of a sequence without repeats has none either. */
  lemma PermutationDistinct(s: seq<string>, t: seq<string>)
    requires multiset(s) == multiset(t) && Distinct(t)
    ensures Distinct(s)
  {
    forall i, j | 0 <= i < j < |s| ensures s[i] != s[j] {
      if s[i] == s[j] {
        assert s == s[..j] + s[j..];
        assert s[i] in s[..j];
        assert s[j] in s[j..];
        assert multiset(s)[s[i]] >= 2;
        DistinctCount(t, s[i]);
      }
    }
  }

  /** `getExistingUsers`: the loop over the stored keys, then the sort. */
  method GetExistingUsers(keys: seq<string>) returns (users: seq<string>)
    ensures users == SortStrings(CollectedUsers(keys))
  {
    users := [];
    var i := 0;
    while i < |keys|
      invariant 0 <= i <= |keys|
      invariant users == CollectedUsers(keys[..i])
    {
      CollectedUsersStep(keys, i);
      var key := keys[i];
      if key != "" && EndsWith(key, UsersSuffix) {
        var username := ReplaceFirst(key, UsersSuffix, "");
        if username != "" && username !in users {
          users := users + [username];
        }
      }
      i := i + 1;
    }
    assert keys[..|keys|] == keys;
    users := SortStrings(users);
  }

  /** The known users are sorted, each listed once, and are exactly the
      names read from the user keys. */
  lemma ExistingUsersSpec(keys: seq<string>)
    ensures var r := SortStrings(CollectedUsers(keys));
      SortedStrings(r) && Distinct(r) &&
      forall u :: u in r <==> exists key :: key in keys && IsUserKey(key) && Username(key) == u
  {
    var c := CollectedUsers(keys);
    var r := SortStrings(c);
    CollectedUsersSpec(keys);
    SortStringsSpec(c);
    PermutationDistinct(r, c);
    forall u ensures u in r <==> u in c {
      assert u in r <==> u in multiset(r);
      assert u in c <==> u in multiset(c);
    }
  }

  /** A user whose name does not run into the suffix is read back from the
      key its groups are stored under. */
  lemma UserKeyRoundTrip(u: string)
    requires u != ""
    requires forall k :: 0 <= k < |u| ==> !OccursAt(u + UsersSuffix, UsersSuffix, k)
    ensures IsUserKey(StorageKey(Some(u), GroupsKey))
    ensures Username(StorageKey(Some(u), GroupsKey)) == u
  {
    var key := StorageKey(Some(u), GroupsKey);
    assert key == u + UsersSuffix;
    assert OccursAt(key, UsersSuffix, |u|);
    var r := FirstOccurrence(key, UsersSuffix, 0);
    assert r == Some(|u|);
    assert key[..|u|] == u;
    assert key[|u| + |UsersSuffix|..] == [];
  }

  /** The first occurrence, not the suffix, is removed: the groups of a user
      named `a_expenseGroupsb` (any two characters around the suffix, the first
      not `_`) are listed under the name `ab_expenseGroups`. */
  lemma UsernameReplacesFirstOccurrence(a: char, b: char)
    requires a != '_'
    ensures var key := StorageKey(Some([a] + UsersSuffix + [b]), GroupsKey);
      IsUserKey(key) && Username(key) == [a, b] + UsersSuffix
  {
    var name := [a] + UsersSuffix + [b];
    var key := StorageKey(Some(name), GroupsKey);
    assert "_" + GroupsKey == UsersSuffix;
    assert key == [a] + UsersSuffix + [b] + UsersSuffix;
    assert key[1..1 + |UsersSuffix|] == UsersSuffix;
    assert !OccursAt(key, UsersSuffix, 0) by {
      assert key[0] != UsersSuffix[0];
    }
    FirstOccurrenceIs(key, UsersSuffix, 1);
    assert key[..1] + "" + key[1 + |UsersSuffix|..] == [a, b] + UsersSuffix;
    assert EndsWith(key, UsersSuffix);
  }

  /** An occurrence with none before it is the first occurrence. */
  lemma FirstOccurrenceIs(s: string, pat: string, k: nat)
    requires OccursAt(s, pat, k) && forall j :: 0 <= j < k ==> !OccursAt(s, pat, j)
    ensures FirstOccurrence(s, pat, 0) == Some(k)
  {
  }

  // ---------------------------------------------------------------- saving and loading

  /** A group as stored, possibly from before groups had a currency. */
  datatype StoredGroup = StoredGroup(
    id: string,
    name: string,
    icon: Option<string>,
    currency: Option<Currency>,
    members: seq<Member>,
    locker: Locker,
    expenses: seq<Expense>,
    createdAt: int)

  /** What the load reads from storage under the user's keys; `None` is a
      missing (or empty) entry. */
  datatype Storage = Storage(
    expenseGroups: Option<seq<StoredGroup>>,
    expenseGroup: Option<StoredGroup>,
    activeGroupId: Option<string>,
    collections: Option<seq<Collection>>,
    activeCollectionId: Option<string>,
    viewMode: Option<string>)

  /** The currency migration: a missing currency becomes the US dollar;
      every other field is kept. */
  function Migrate(sg: StoredGroup): (g: Group)
    ensures g.currency == if sg.currency.Some? then sg.currency.value else USD
    ensures g.id == sg.id && g.name == sg.name && g.icon == sg.icon && g.members == sg.members
    ensures g.locker == sg.locker && g.expenses == sg.expenses && g.createdAt == sg.createdAt
  {
    Group(sg.id, sg.name, sg.icon, if sg.currency.Some? then sg.currency.value else USD,
          sg.members, sg.locker, sg.expenses, sg.createdAt)
  }

  /** A group as the save effect stores it. */
  function Stored(g: Group): StoredGroup
  {
    StoredGroup(g.id, g.name, g.icon, Some(g.currency), g.members, g.locker, g.expenses, g.createdAt)
  }

  /** The list the save effect stores under the groups key. */
  function StoredAll(gs: seq<Group>): (sgs: seq<StoredGroup>)
    ensures |sgs| == |gs|
    ensures forall i :: 0 <= i < |gs| ==> sgs[i] == Stored(gs[i])
  {
    seq(|gs|, i requires 0 <= i < |gs| => Stored(gs[i]))
  }

  /** `if (!currentUser) return;`: the effects run only for a user whose
      name is neither null nor empty. */
  predicate LoggedIn(user: Option<string>)
  {
    user.Some? && user.value != ""
  }

  /** The value the collections save effect writes under the view-mode key. */
  function ViewModeName(v: ViewMode): (name: string)
    ensures LoadedViewMode(Some(name), GroupsView) == v
    ensures LoadedViewMode(Some(name), CollectionsView) == v
  {
    match v
    case GroupsView => "groups"
    case CollectionsView => "collections"
  }

  /** The groups save effect. With a user logged in it writes the list only
      when it is non-empty, and the active id only when it is set; every
      other key, and every key it skips, keeps what was stored before. */
  function SaveGroups(st: Storage, user: Option<string>, gs: seq<Group>, active: Option<string>): (r: Storage)
    ensures r.expenseGroups == (if LoggedIn(user) && |gs| > 0 then Some(StoredAll(gs)) else st.expenseGroups)
    ensures r.activeGroupId ==
      (if LoggedIn(user) && active.Some? && active.value != "" then active else st.activeGroupId)
    ensures r.expenseGroup == st.expenseGroup && r.collections == st.collections
    ensures r.activeCollectionId == st.activeCollectionId && r.viewMode == st.viewMode
  {
    if !LoggedIn(user) then st
    else
      var st1 := if |gs| > 0 then st.(expenseGroups := Some(StoredAll(gs))) else st;
      if active.Some? && active.value != "" then st1.(activeGroupId := active) else st1
  }

  /** The collections save effect: the list only when it is non-empty, the
      active id only when it is set, and the view mode always. */
  function SaveCollections(st: Storage, user: Option<string>, cs: seq<Collection>, active: Option<string>,
                           view: ViewMode): (r: Storage)
    ensures r.collections == (if LoggedIn(user) && |cs| > 0 then Some(cs) else st.collections)
    ensures r.activeCollectionId ==
      (if LoggedIn(user) && active.Some? && active.value != "" then active else st.activeCollectionId)
    ensures r.viewMode == (if LoggedIn(user) then Some(ViewModeName(view)) else st.viewMode)
    ensures r.expenseGroups == st.expenseGroups && r.expenseGroup == st.expenseGroup
    ensures r.activeGroupId == st.activeGroupId
  {
    if !LoggedIn(user) then st
    else
      var st1 := if |cs| > 0 then st.(collections := Some(cs)) else st;
      var st2 := if active.Some? && active.value != "" then st1.(activeCollectionId := active) else st1;
      st2.(viewMode := Some(ViewModeName(view)))
  }

  /** Saving a non-empty list of groups and loading it back gives the same
      groups, since the currency migration changes no saved group, and a
      saved active id that names one of them is restored. */
  lemma SaveThenLoad(st: Storage, user: Option<string>, gs: seq<Group>, active: Option<string>,
                     current: Option<string>)
    requires LoggedIn(user) && |gs| > 0
    ensures var saved := SaveGroups(st, user, gs, active);
      LoadedGroups(saved) == Some(gs) &&
      (active.Some? && active.value != "" && HasGroupId(gs, active.value) ==>
         LoadedActive(gs, saved.activeGroupId, current) == active)
  {
    var loaded := MigrateAll(StoredAll(gs));
    assert forall i :: 0 <= i < |gs| ==> loaded[i] == Migrate(Stored(gs[i])) == gs[i];
    assert loaded == gs;
  }

  /** Emptying the groups list writes nothing, so the load brings back the
      last non-empty list that was saved: deleting every group does not
      survive a reload. */
  lemma EmptiedGroupsComeBack(st: Storage, user: Option<string>, gs: seq<Group>, active: Option<string>)
    requires LoggedIn(user) && |gs| > 0
    ensures LoadedGroups(SaveGroups(SaveGroups(st, user, gs, active), user, [], None)) == Some(gs)
  {
    SaveThenLoad(st, user, gs, active, None);
  }

  /** Saving a non-empty list of collections, an active id naming one of
      them and the view mode, then loading, restores all three. */
  lemma SaveCollectionsThenLoad(st: Storage, user: Option<string>, cs: seq<Collection>, active: string,
                                view: ViewMode, current: Option<string>, currentView: ViewMode)
    requires LoggedIn(user) && |cs| > 0 && active != "" && HasCollectionId(cs, active)
    ensures var saved := SaveCollections(st, user, cs, Some(active), view);
      saved.collections == Some(cs) &&
      LoadedActiveCollection(cs, saved.activeCollectionId, current) == Some(active) &&
      LoadedViewMode(saved.viewMode, currentView) == view
  {
  }

  /** Emptying the collections list or clearing the active collection
      writes nothing, so the previous list and id are loaded back. */
  lemma EmptiedCollectionsComeBack(st: Storage, user: Option<string>, cs: seq<Collection>, active: string,
                                   view: ViewMode)
    requires LoggedIn(user) && |cs| > 0 && active != ""
    ensures var saved := SaveCollections(SaveCollections(st, user, cs, Some(active), view), user, [], None, view);
      saved.collections == Some(cs) && saved.activeCollectionId == Some(active)
  {
  }

  function MigrateAll(sgs: seq<StoredGroup>): (gs: seq<Group>)
    ensures |gs| == |sgs|
    ensures forall i :: 0 <= i < |sgs| ==> gs[i] == Migrate(sgs[i])
  {
    seq(|sgs|, i requires 0 <= i < |sgs| => Migrate(sgs[i]))
  }

  /** The groups loaded: the saved list, or else a legacy single group
      wrapped into a list, each migrated; nothing when neither is stored. */
  function LoadedGroups(st: Storage): (r: Option<seq<Group>>)
    ensures r.None? <==> st.expenseGroups.None? && st.expenseGroup.None?
    ensures st.expenseGroups.Some? ==> r == Some(MigrateAll(st.expenseGroups.value))
    ensures st.expenseGroups.None? && st.expenseGroup.Some? ==> r == Some([Migrate(st.expenseGroup.value)])
  {
    if st.expenseGroups.Some? then Some(MigrateAll(st.expenseGroups.value))
    else if st.expenseGroup.Some? then Some([Migrate(st.expenseGroup.value)])
    else None
  }

  predicate HasGroupId(gs: seq<Group>, id: string)
  {
    exists i :: 0 <= i < |gs| && gs[i].id == id
  }

  predicate HasCollectionId(cs: seq<Collection>, id: string)
  {
    exists i :: 0 <= i < |cs| && cs[i].id == id
  }

  /** The active group after loading: the saved id when a loaded group has
      it, else the first loaded group, else the current value. */
  function LoadedActive(gs: seq<Group>, saved: Option<string>, current: Option<string>): (r: Option<string>)
    ensures saved.Some? && saved.value != "" && HasGroupId(gs, saved.value) ==> r == saved
    ensures !(saved.Some? && saved.value != "" && HasGroupId(gs, saved.value)) ==>
      r == (if |gs| > 0 then Some(gs[0].id) else current)
    ensures |gs| > 0 ==> r.Some? && HasGroupId(gs, r.value)
  {
    if saved.Some? && saved.value != "" && HasGroupId(gs, saved.value) then saved
    else if |gs| > 0 then Some(gs[0].id)
    else current
  }

  /** The active collection after loading: the saved id when a loaded
      collection has it, else the current value. */
  function LoadedActiveCollection(cs: seq<Collection>, saved: Option<string>, current: Option<string>)
    : (r: Option<string>)
    ensures saved.Some? && saved.value != "" && HasCollectionId(cs, saved.value) ==> r == saved
    ensures !(saved.Some? && saved.value != "" && HasCollectionId(cs, saved.value)) ==> r == current
    ensures r == current || (r.Some? && HasCollectionId(cs, r.value))
  {
    if saved.Some? && saved.value != "" && HasCollectionId(cs, saved.value) then saved else current
  }

  datatype ViewMode = GroupsView | CollectionsView

  function LoadedViewMode(saved: Option<string>, current: ViewMode): (v: ViewMode)
    ensures saved == Some("collections") ==> v == CollectionsView
    ensures saved == Some("groups") ==> v == GroupsView
    ensures saved != Some("collections") && saved != Some("groups") ==> v == current
  {
    if saved == Some("collections") then CollectionsView
    else if saved == Some("groups") then GroupsView
    else current
  }

  // ---------------------------------------------------------------- group and collection lists

  function GroupIdIsNot(id: string): Group -> bool
  {
    (g: Group) => g.id != id
  }

  function CollectionIdIsNot(id: string): Collection -> bool
  {
    (c: Collection) => c.id != id
  }

  function IdIsNot(id: string): string -> bool
  {
    (x: string) => x != id
  }

  function RemoveGroup(gs: seq<Group>, id: string): (r: seq<Group>)
    ensures forall g :: g in r <==> g in gs && g.id != id
  {
    Filter(gs, GroupIdIsNot(id))
  }

  function RemoveCollection(cs: seq<Collection>, id: string): (r: seq<Collection>)
    ensures forall c :: c in r <==> c in cs && c.id != id
  {
    Filter(cs, CollectionIdIsNot(id))
  }

  function FirstGroupId(gs: seq<Group>): (r: Option<string>)
    ensures r.None? <==> |gs| == 0
    ensures r.Some? ==> HasGroupId(gs, r.value)
  {
    if |gs| > 0 then Some(gs[0].id) else None
  }

  function FirstCollectionId(cs: seq<Collection>): (r: Option<string>)
    ensures r.None? <==> |cs| == 0
    ensures r.Some? ==> HasCollectionId(cs, r.value)
  {
    if |cs| > 0 then Some(cs[0].id) else None
  }

  /** A collection with one group id stripped, touched at `now`. */
  function Strip(c: Collection, id: string, now: int): Collection
  {
    c.(groupIds := Filter(c.groupIds, IdIsNot(id)), updatedAt := now)
  }

  function Stripped(cs: seq<Collection>, id: string, now: int): (r: seq<Collection>)
    ensures |r| == |cs|
    ensures forall i :: 0 <= i < |cs| ==> r[i] == Strip(cs[i], id, now)
  {
    seq(|cs|, i requires 0 <= i < |cs| => Strip(cs[i], id, now))
  }

  predicate HasGroups(c: Collection)
  {
    |c.groupIds| > 0
  }

  /** The collections after a group is deleted: the id stripped from each,
      then the collections left without groups dropped. */
  function CascadeCollections(cs: seq<Collection>, id: string, now: int): seq<Collection>
  {
    Filter(Stripped(cs, id, now), HasGroups)
  }

  /** No remaining collection mentions the deleted group or is empty; each
      is an old collection stripped of it; and an old collection survives
      exactly when it had another group. */
  lemma CascadeSpec(cs: seq<Collection>, id: string, now: int)
    ensures var r := CascadeCollections(cs, id, now);
      (forall c :: c in r ==> id !in c.groupIds && |c.groupIds| > 0 && c.updatedAt == now) &&
      (forall c :: c in r ==> exists o :: o in cs && c == Strip(o, id, now)) &&
      (forall o :: o in cs ==> (Strip(o, id, now) in r <==> exists x :: x in o.groupIds && x != id))
  {
    var s := Stripped(cs, id, now);
    forall c | c in s ensures exists o :: o in cs && c == Strip(o, id, now) {
      var i :| 0 <= i < |s| && s[i] == c;
      assert cs[i] in cs;
    }
    forall o | o in cs ensures Strip(o, id, now) in s {
      var i :| 0 <= i < |cs| && cs[i] == o;
      assert s[i] == Strip(o, id, now);
    }
    forall o | o in cs ensures |Strip(o, id, now).groupIds| > 0 <==> exists x :: x in o.groupIds && x != id {
      var kept := Strip(o, id, now).groupIds;
      if |kept| > 0 {
        assert kept[0] in kept;
      }
      if exists x :: x in o.groupIds && x != id {
        var x :| x in o.groupIds && x != id;
        assert x in kept;
      }
    }
  }

  /** A collection that survives the deletion aggregates the groups it
      aggregated before, less the deleted one. */
  lemma DeleteGroupAggregates(c: Collection, groups: seq<Group>, id: string, now: int)
    ensures Aggregates.IncludedGroups(Strip(c, id, now), RemoveGroup(groups, id)) ==
      RemoveGroup(Aggregates.IncludedGroups(c, groups), id)
  {
    var rest := RemoveGroup(groups, id);
    forall i | 0 <= i < |rest|
      ensures Aggregates.InCollection(Strip(c, id, now))(rest[i]) == Aggregates.InCollection(c)(rest[i])
    {
      assert rest[i] in rest;
    }
    FilterEquiv(rest, Aggregates.InCollection(Strip(c, id, now)), Aggregates.InCollection(c));
    FilterCommute(groups, GroupIdIsNot(id), Aggregates.InCollection(c));
  }

  /** A collection whose ids all name groups still does after a group is
      deleted and the cascade strips the id. */
  lemma DeleteGroupKeepsValid(c: Collection, groups: seq<Group>, id: string, now: int)
    requires CollectionAggregation.ValidateCollectionGroups(c, groups).valid
    ensures CollectionAggregation.ValidateCollectionGroups(Strip(c, id, now), RemoveGroup(groups, id)).valid
  {
    forall x | x in Strip(c, id, now).groupIds
      ensures exists g :: g in RemoveGroup(groups, id) && g.id == x
    {
      var g :| g in groups && g.id == x;
      assert g in RemoveGroup(groups, id);
    }
  }

  /** Replacing a group by id keeps every id, so every collection keeps its
      validity. */
  lemma UpdateKeepsValidity(c: Collection, gs: seq<Group>, u: Group)
    ensures CollectionAggregation.ValidateCollectionGroups(c, ReplaceByKey(gs, GroupIdOf, u)).valid ==
      CollectionAggregation.ValidateCollectionGroups(c, gs).valid
  {
    var r := ReplaceByKey(gs, GroupIdOf, u);
    forall x | x in c.groupIds
      ensures (exists g :: g in r && g.id == x) <==> (exists g :: g in gs && g.id == x)
    {
      if exists g :: g in r && g.id == x {
        var g :| g in r && g.id == x;
        var i :| 0 <= i < |r| && r[i] == g;
        assert gs[i] in gs;
      }
      if exists g :: g in gs && g.id == x {
        var g :| g in gs && g.id == x;
        var i :| 0 <= i < |gs| && gs[i] == g;
        assert r[i] in r;
      }
    }
  }

  /** The app's state. */
  class AppState {
    var currentUser: Option<string>
    var groups: seq<Group>
    var activeGroupId: Option<string>
    var collections: seq<Collection>
    var activeCollectionId: Option<string>
    var viewMode: ViewMode

    /** The active group id, when set, names a group. */
    predicate ActiveGroupValid()
      reads this
    {
      activeGroupId.Some? ==> HasGroupId(groups, activeGroupId.value)
    }

    constructor ()
      ensures currentUser == None && groups == [] && activeGroupId == None
      ensures collections == [] && activeCollectionId == None && viewMode == GroupsView
    {
      currentUser := None;
      groups := [];
      activeGroupId := None;
      collections := [];
      activeCollectionId := None;
      viewMode := GroupsView;
    }

    /** The load effect when the user changes. Nothing happens without a
        user. Otherwise the loaded groups replace the list (none when
        nothing is stored, which also clears the active id), the collections
        likewise, and the saved view mode is taken when it is valid. */
    method Load(st: Storage)
      modifies this
      ensures currentUser == old(currentUser)
      ensures (old(currentUser).None? || old(currentUser).value == "") ==>
        groups == old(groups) && activeGroupId == old(activeGroupId) &&
        collections == old(collections) && activeCollectionId == old(activeCollectionId) &&
        viewMode == old(viewMode)
      ensures old(currentUser).Some? && old(currentUser).value != "" ==>
        var loaded := LoadedGroups(st);
        (loaded.Some? ==>
           groups == loaded.value &&
           activeGroupId == LoadedActive(loaded.value, st.activeGroupId, old(activeGroupId))) &&
        (loaded.None? ==> groups == [] && activeGroupId == None) &&
        (st.collections.Some? ==>
           collections == st.collections.value &&
           activeCollectionId == LoadedActiveCollection(st.collections.value, st.activeCollectionId, old(activeCollectionId))) &&
        (st.collections.None? ==> collections == [] && activeCollectionId == None) &&
        viewMode == LoadedViewMode(st.viewMode, old(viewMode))
      ensures old(currentUser).Some? && old(currentUser).value != "" && |groups| > 0 ==> ActiveGroupValid()
    {
      if currentUser.None? || currentUser.value == "" {
        return;
      }
      var loaded := LoadedGroups(st);
      if loaded.Some? {
        groups := loaded.value;
        activeGroupId := LoadedActive(loaded.value, st.activeGroupId, activeGroupId);
      } else {
        groups := [];
        activeGroupId := None;
      }
      if st.collections.Some? {
        collections := st.collections.value;
        activeCollectionId := LoadedActiveCollection(st.collections.value, st.activeCollectionId, activeCollectionId);
      } else {
        collections := [];
        activeCollectionId := None;
      }
      viewMode := LoadedViewMode(st.viewMode, viewMode);
    }

    /** `handleGroupCreated`: append the group and make it active. */
    method HandleGroupCreated(g: Group)
      modifies this
      ensures groups == old(groups) + [g] && activeGroupId == Some(g.id)
      ensures collections == old(collections) && activeCollectionId == old(activeCollectionId)
      ensures currentUser == old(currentUser) && viewMode == old(viewMode)
      ensures ActiveGroupValid()
    {
      groups := groups + [g];
      activeGroupId := Some(g.id);
      assert groups[|groups| - 1].id == g.id;
    }

    /** `handleGroupUpdate`: replace by id. */
    method HandleGroupUpdate(u: Group)
      modifies this
      ensures groups == ReplaceByKey(old(groups), GroupIdOf, u)
      ensures activeGroupId == old(activeGroupId) && collections == old(collections)
      ensures activeCollectionId == old(activeCollectionId)
      ensures currentUser == old(currentUser) && viewMode == old(viewMode)
      ensures old(ActiveGroupValid()) ==> ActiveGroupValid()
    {
      var before := groups;
      groups := ReplaceByKey(groups, GroupIdOf, u);
      if activeGroupId.Some? && HasGroupId(before, activeGroupId.value) {
        var i :| 0 <= i < |before| && before[i].id == activeGroupId.value;
        assert groups[i].id == activeGroupId.value;
      }
    }

    /** `deleteGroup`: unless cancelled, remove the group, cascade into the
        collections, and move the active group to the first remaining one
        when it was the deleted one. The active collection is not touched. */
    method DeleteGroup(id: string, confirmed: bool, now: int)
      modifies this
      ensures !confirmed ==>
        groups == old(groups) && collections == old(collections) &&
        activeGroupId == old(activeGroupId)
      ensures confirmed ==>
        groups == RemoveGroup(old(groups), id) &&
        collections == CascadeCollections(old(collections), id, now) &&
        activeGroupId == (if old(activeGroupId) == Some(id) then FirstGroupId(groups) else old(activeGroupId))
      ensures activeCollectionId == old(activeCollectionId)
      ensures currentUser == old(currentUser) && viewMode == old(viewMode)
      ensures old(ActiveGroupValid()) ==> ActiveGroupValid()
    {
      if !confirmed {
        return;
      }
      var before := groups;
      groups := RemoveGroup(groups, id);
      collections := CascadeCollections(collections, id, now);
      if activeGroupId == Some(id) {
        activeGroupId := FirstGroupId(groups);
      } else if activeGroupId.Some? && HasGroupId(before, activeGroupId.value) {
        var i :| 0 <= i < |before| && before[i].id == activeGroupId.value;
        assert before[i] in groups;
      }
    }

    /** `handleCreateCollection`: append, make active, show collections. */
    method HandleCreateCollection(c: Collection)
      modifies this
      ensures collections == old(collections) + [c] && activeCollectionId == Some(c.id)
      ensures viewMode == CollectionsView
      ensures groups == old(groups) && activeGroupId == old(activeGroupId) && currentUser == old(currentUser)
    {
      collections := collections + [c];
      activeCollectionId := Some(c.id);
      viewMode := CollectionsView;
    }

    /** `handleUpdateCollection`: replace by id. */
    method HandleUpdateCollection(u: Collection)
      modifies this
      ensures collections == ReplaceByKey(old(collections), CollectionIdOf, u)
      ensures activeCollectionId == old(activeCollectionId) && viewMode == old(viewMode)
      ensures groups == old(groups) && activeGroupId == old(activeGroupId) && currentUser == old(currentUser)
    {
      collections := ReplaceByKey(collections, CollectionIdOf, u);
    }

    /** `handleDeleteCollection`: unless cancelled, remove the collection
        and move the active collection to the first remaining one when it
        was the deleted one; groups are not deleted. */
    method HandleDeleteCollection(id: string, confirmed: bool)
      modifies this
      ensures !confirmed ==> collections == old(collections) && activeCollectionId == old(activeCollectionId)
      ensures confirmed ==>
        collections == RemoveCollection(old(collections), id) &&
        activeCollectionId == (if old(activeCollectionId) == Some(id) then FirstCollectionId(collections)
                               else old(activeCollectionId))
      ensures groups == old(groups) && activeGroupId == old(activeGroupId)
      ensures currentUser == old(currentUser) && viewMode == old(viewMode)
    {
      if !confirmed {
        return;
      }
      collections := RemoveCollection(collections, id);
      if activeCollectionId == Some(id) {
        activeCollectionId := FirstCollectionId(collections);
      }
    }

    /** `importData`: a parsed group is appended under a fresh id and made
        active; a file that does not parse changes nothing. */
    method ImportData(parsed: Option<Group>, freshId: string)
      modifies this
      ensures parsed.None? ==> groups == old(groups) && activeGroupId == old(activeGroupId)
      ensures parsed.Some? ==>
        groups == old(groups) + [parsed.value.(id := freshId)] &&
        activeGroupId == Some(freshId)
      ensures collections == old(collections) && activeCollectionId == old(activeCollectionId)
      ensures currentUser == old(currentUser) && viewMode == old(viewMode)
      ensures old(ActiveGroupValid()) ==> ActiveGroupValid()
    {
      if parsed.Some? {
        var newGroup := parsed.value.(id := freshId);
        groups := groups + [newGroup];
        activeGroupId := Some(newGroup.id);
        assert groups[|groups| - 1].id == freshId;
      }
    }
  }

  /** Deleting a group does not move the active collection, even when the
      cascade drops it: a collection holding only the deleted group
      disappears while it stays active. */
  lemma DeleteGroupCanDropActiveCollection(c: Collection, now: int)
    requires c.groupIds == ["g1"]
    ensures CascadeCollections([c], "g1", now) == []
  {
    var s := Stripped([c], "g1", now);
    assert Filter(["g1"], IdIsNot("g1")) == [];
    assert s == [Strip(c, "g1", now)];
    assert !HasGroups(s[0]);
    assert Filter(s, HasGroups) == [] by {
      assert s[1..] == [];
    }
  }
}
