/** Creating a group (src/components/GroupSetup.tsx): the member list being
    built, and the new group with an empty locker. Ids (`Date.now()`) and the
    creation time are parameters. */
module GroupSetup {
  import opened Types
  import opened Seqs
  import opened Text

  function MemberIdIsNot(id: string): Member -> bool
  {
    (m: Member) => m.id != id
  }

  /** `addMember`: a blank name is ignored; otherwise a member with the
      trimmed name and no budget is appended. */
  function AddMemberTo(ms: seq<Member>, name: string, freshId: string): (r: seq<Member>)
    ensures Blank(name) ==> r == ms
    ensures !Blank(name) ==>
      |r| == |ms| + 1 && r[..|ms|] == ms &&
      r[|ms|] == Member(freshId, Trim(name), 0.0) && r[|ms|].name != []
  {
    TrimEmpty(name);
    if Trim(name) == [] then ms else ms + [Member(freshId, Trim(name), 0.0)]
  }

  /** `removeMember`: the members without the id, in order. */
  function RemoveMember(ms: seq<Member>, id: string): (r: seq<Member>)
    ensures forall m :: m in r <==> m in ms && m.id != id
  {
    Filter(ms, MemberIdIsNot(id))
  }

  /** The remaining members keep their order: a member appended to the list
      is appended to the result exactly when it has another id. */
  lemma RemoveMemberKeepsOrder(ms: seq<Member>, m: Member, id: string)
    ensures RemoveMember(ms + [m], id) == RemoveMember(ms, id) + (if m.id != id then [m] else [])
  {
    FilterSnoc(ms, m, MemberIdIsNot(id));
  }

  /** Removing a member just added (with a fresh id) restores the list. */
  lemma AddThenRemove(ms: seq<Member>, name: string, freshId: string)
    requires forall m :: m in ms ==> m.id != freshId
    ensures RemoveMember(AddMemberTo(ms, name, freshId), freshId) == ms
  {
    var p := MemberIdIsNot(freshId);
    FilterAll(ms, p);
    if !Blank(name) {
      TrimEmpty(name);
      FilterAppend(ms, [Member(freshId, Trim(name), 0.0)], p);
      assert Filter([Member(freshId, Trim(name), 0.0)], p) == [];
    }
  }

  /** `createGroup`: nothing without a non-blank name and at least one
      member; otherwise a group with the trimmed name, the chosen icon and
      currency, the members, an empty locker and no expenses. */
  function CreateGroup(name: string, icon: string, currency: Currency, ms: seq<Member>,
                       freshId: string, now: int): (r: Option<Group>)
    ensures r.None? <==> Blank(name) || |ms| == 0
    ensures r.Some? ==>
      var g := r.value;
      g.id == freshId && g.name == Trim(name) && g.name != [] && g.icon == Some(icon) &&
      g.currency == currency && g.members == ms && g.expenses == [] && g.createdAt == now &&
      g.locker == Locker(0.0, []) && LockerBalanced(g.locker)
  {
    TrimEmpty(name);
    if Trim(name) == [] || |ms| == 0 then None
    else Some(Group(freshId, Trim(name), Some(icon), currency, ms, Locker(0.0, []), [], now))
  }

  /** The form's state. */
  class GroupSetupForm {
    var groupName: string
    var groupIcon: string
    var currency: Currency
    var memberName: string
    var members: seq<Member>

    constructor ()
      ensures groupName == "" && groupIcon == "✈️" && currency == USD
      ensures memberName == "" && members == []
    {
      groupName := "";
      groupIcon := "✈️";
      currency := USD;
      memberName := "";
      members := [];
    }

    /** `addMember`: append the member and clear the name field, or do
        nothing for a blank name. */
    method AddMember(freshId: string)
      modifies this
      ensures members == AddMemberTo(old(members), old(memberName), freshId)
      ensures memberName == if Blank(old(memberName)) then old(memberName) else ""
      ensures groupName == old(groupName) && groupIcon == old(groupIcon) && currency == old(currency)
    {
      TrimEmpty(memberName);
      if Trim(memberName) != [] {
        members := members + [Member(freshId, Trim(memberName), 0.0)];
        memberName := "";
      }
    }

    /** `removeMember`. */
    method RemoveMemberById(id: string)
      modifies this
      ensures members == RemoveMember(old(members), id)
      ensures memberName == old(memberName) && groupName == old(groupName)
      ensures groupIcon == old(groupIcon) && currency == old(currency)
    {
      members := RemoveMember(members, id);
    }

    /** `createGroup`: the group handed to the caller, if any. */
    method Create(freshId: string, now: int) returns (r: Option<Group>)
      ensures r == CreateGroup(groupName, groupIcon, currency, members, freshId, now)
    {
      r := CreateGroup(groupName, groupIcon, currency, members, freshId, now);
    }
  }
}
