/**
 * The group bean that carries its members as plain email addresses, and the
 * membership diff it computes when the synchronization engine asks for a
 * modification.
 */
module MembersEmails {
  import opened Wrappers
  import opened Lists
  import opened Beans

  /** The engine's modifications, keyed by attribute name, each value already a string. */
  type Modifications = map<string, seq<string>>

  /**
   * A group with its members as emails, plus the emails still to be added to
   * and removed from the backend group. A null reference is None.
   */
  datatype GroupWithMembersEmails = GroupWithMembersEmails(
    id: Option<string>,
    name: Option<string>,
    email: Option<string>,
    creator: Option<string>,
    members: seq<string>,
    membersToAdd: seq<string>,
    membersToRemove: seq<string>)

  /** A typed membership reference as the backend's write API expects it; getId reads member. */
  datatype Membership = Membership(member: string, objectType: string)

  /** The value stored under one key of the engine's datasets: a single nullable string or a list. */
  datatype Dataset = Value(value: Option<string>) | Values(values: seq<string>)

  // ---------------------------------------------------------------------------
  // Construction

  /** The emails of a list of member records, one per record and in the same order. */
  function EmailsOf(ms: seq<Member>): (emails: seq<string>)
    ensures |emails| == |ms|
    ensures forall i :: 0 <= i < |ms| ==> emails[i] == ms[i].member
  {
    if ms == [] then [] else [ms[0].member] + EmailsOf(ms[1..])
  }

  /**
   * The public constructor: the fetched group's base fields, its members'
   * emails, and nothing pending.
   */
  function FromGroup(group: Group, ms: seq<Member>): (r: GroupWithMembersEmails)
    ensures r.id == group.id && r.name == group.name && r.email == group.email
    ensures r.creator == group.creator
    ensures |r.members| == |ms|
    ensures forall i :: 0 <= i < |ms| ==> r.members[i] == ms[i].member
    ensures r.membersToAdd == [] && r.membersToRemove == []
  {
    GroupWithMembersEmails(group.id, group.name, group.email, group.creator, EmailsOf(ms), [], [])
  }

  /** The private constructor: every field as given, the creator always null. */
  function Assemble(id: Option<string>, name: Option<string>, email: Option<string>,
                    membersEmails: seq<string>, toAdd: seq<string>, toRemove: seq<string>): (r: GroupWithMembersEmails)
    ensures r.creator == None
    ensures r.id == id && r.name == name && r.email == email
    ensures r.members == membersEmails && r.membersToAdd == toAdd && r.membersToRemove == toRemove
  {
    GroupWithMembersEmails(id, name, email, None, membersEmails, toAdd, toRemove)
  }

  /** The first value listed under key, or defaultValue when the key is absent or its list empty. */
  function FirstValueAsString(mods: Modifications, key: string, defaultValue: Option<string>): (r: Option<string>)
    ensures key in mods && |mods[key]| > 0 ==> r == Some(mods[key][0])
    ensures key !in mods || mods[key] == [] ==> r == defaultValue
  {
    if key !in mods then defaultValue
    else
      var values := mods[key];
      if |values| > 0 then Some(values[0]) else defaultValue
  }

  /** The member emails listed under "members"; none when the key is absent. */
  function GetMembers(mods: Modifications): (r: seq<string>)
    ensures "members" in mods ==> r == mods["members"]
    ensures "members" !in mods ==> r == []
  {
    if "members" in mods then mods["members"] else []
  }

  /** The group the engine asks to create: no id, no creator, nothing pending. */
  function FromModifications(mods: Modifications): (r: GroupWithMembersEmails)
    ensures r.id == None && r.creator == None
    ensures r.name == if "name" in mods && |mods["name"]| > 0 then Some(mods["name"][0]) else None
    ensures r.email == if "email" in mods && |mods["email"]| > 0 then Some(mods["email"][0]) else None
    ensures r.members == if "members" in mods then mods["members"] else []
    ensures r.membersToAdd == [] && r.membersToRemove == []
  {
    var name := FirstValueAsString(mods, "name", None);
    var email := FirstValueAsString(mods, "email", None);
    var membersEmails := GetMembers(mods);
    Assemble(None, name, email, membersEmails, [], [])
  }

  // ---------------------------------------------------------------------------
  // Modification

  /** The group modify returns, stated as a function of the current group and the modifications. */
  function Modified(g: GroupWithMembersEmails, mods: Modifications): (r: GroupWithMembersEmails)
    ensures r.id == g.id && r.creator == None
    ensures r.members == GetMembers(mods)
    ensures |r.membersToAdd| <= |r.members| && |r.membersToRemove| <= |g.members|
  {
    var newMembers := GetMembers(mods);
    Assemble(g.id, FirstValueAsString(mods, "name", g.name), FirstValueAsString(mods, "email", g.email),
             newMembers, Difference(newMembers, g.members), Difference(g.members, newMembers))
  }

  /**
   * modify: copies the new and the current member lists into fresh mutable
   * lists, removes from each, in place, everything the other holds, and
   * returns a new group holding the results.
   */
  method Modify(g: GroupWithMembersEmails, mods: Modifications) returns (r: GroupWithMembersEmails)
    ensures r == Modified(g, mods)
  {
    var name := FirstValueAsString(mods, "name", g.name);
    var email := FirstValueAsString(mods, "email", g.email);
    var newMembers := GetMembers(mods);
    var membersToAdd := new ArrayList(newMembers);
    membersToAdd.RemoveAll(g.members);
    var membersToRemove := new ArrayList(g.members);
    membersToRemove.RemoveAll(newMembers);
    r := Assemble(g.id, name, email, newMembers, membersToAdd.elements, membersToRemove.elements);
  }

  /** Base fields after modify: id kept, creator cleared, name and email taken from the modifications or kept. */
  lemma {:induction false} ModifiedBaseFields(g: GroupWithMembersEmails, mods: Modifications, r: GroupWithMembersEmails)
    requires r == Modified(g, mods)
    ensures r.id == g.id && r.creator == None
    ensures r.name == if "name" in mods && |mods["name"]| > 0 then Some(mods["name"][0]) else g.name
    ensures r.email == if "email" in mods && |mods["email"]| > 0 then Some(mods["email"][0]) else g.email
    ensures r.members == if "members" in mods then mods["members"] else []
  {
  }

  /**
   * The add list holds exactly the new members that are not current members,
   * in the order of the new list and each as often as it is listed there.
   */
  lemma {:induction false} ModifiedMembersToAdd(g: GroupWithMembersEmails, mods: Modifications, r: GroupWithMembersEmails)
    requires r == Modified(g, mods)
    ensures Subsequence(r.membersToAdd, r.members)
    ensures forall x :: x in r.membersToAdd <==> x in r.members && x !in g.members
    ensures forall x :: multiset(r.membersToAdd)[x] == if x in g.members then 0 else multiset(r.members)[x]
  {
    DifferenceSubsequence(r.members, g.members);
    forall x ensures x in r.membersToAdd <==> x in r.members && x !in g.members {
      DifferenceMembership(r.members, g.members, x);
    }
    forall x ensures multiset(r.membersToAdd)[x] == if x in g.members then 0 else multiset(r.members)[x] {
      DifferenceMultiplicity(r.members, g.members, x);
    }
  }

  /**
   * The remove list holds exactly the current members that are not new
   * members, in the order of the current list and each as often as it is
   * listed there; so it shares nothing with the add list.
   */
  lemma {:induction false} ModifiedMembersToRemove(g: GroupWithMembersEmails, mods: Modifications, r: GroupWithMembersEmails)
    requires r == Modified(g, mods)
    ensures Subsequence(r.membersToRemove, g.members)
    ensures forall x :: x in r.membersToRemove <==> x in g.members && x !in r.members
    ensures forall x :: multiset(r.membersToRemove)[x] == if x in r.members then 0 else multiset(g.members)[x]
    ensures Elements(r.membersToRemove) !! Elements(r.membersToAdd)
  {
    DifferenceSubsequence(g.members, r.members);
    forall x ensures x in r.membersToRemove <==> x in g.members && x !in r.members {
      DifferenceMembership(g.members, r.members, x);
    }
    forall x ensures multiset(r.membersToRemove)[x] == if x in r.members then 0 else multiset(g.members)[x] {
      DifferenceMultiplicity(g.members, r.members, x);
    }
    ModifiedMembersToAdd(g, mods, r);
  }

  /**
   * The diff invariant between a current member list and a desired group:
   * nothing to add is already a member, everything to remove is one, and
   * applying both to the current members gives the desired members.
   */
  ghost predicate DiffInvariant(current: seq<string>, desired: GroupWithMembersEmails)
  {
    && Elements(desired.membersToAdd) !! Elements(current)
    && Elements(desired.membersToRemove) <= Elements(current)
    && Elements(desired.membersToRemove) !! Elements(desired.members)
    && (Elements(current) - Elements(desired.membersToRemove)) + Elements(desired.membersToAdd) == Elements(desired.members)
  }

  /** modify keeps the diff invariant with respect to the group's own current members. */
  lemma {:induction false} ModifiedKeepsDiffInvariant(g: GroupWithMembersEmails, mods: Modifications)
    ensures DiffInvariant(g.members, Modified(g, mods))
  {
    var r := Modified(g, mods);
    DifferenceElements(r.members, g.members);
    DifferenceElements(g.members, r.members);
  }

  /** Both diff lists are empty exactly when the new members are, as a set, the current ones. */
  lemma {:induction false} ModifiedNoDiffIffSameMembers(g: GroupWithMembersEmails, mods: Modifications, r: GroupWithMembersEmails)
    requires r == Modified(g, mods)
    ensures r.membersToAdd == [] && r.membersToRemove == [] <==> Elements(r.members) == Elements(g.members)
  {
    DifferenceEmpty(r.members, g.members);
    DifferenceEmpty(g.members, r.members);
  }

  /** Modifying a second time with the same modifications changes nothing and schedules nothing. */
  lemma {:induction false} ModifiedTwice(g: GroupWithMembersEmails, mods: Modifications)
    ensures var once := Modified(g, mods);
            var twice := Modified(once, mods);
            && twice.membersToAdd == [] && twice.membersToRemove == []
            && twice.id == once.id && twice.name == once.name && twice.email == once.email
            && twice.members == once.members
  {
    var once := Modified(g, mods);
    ModifiedNoDiffIffSameMembers(once, mods, Modified(once, mods));
  }

  /**
   * Without a "members" key the new member list is empty: every current member
   * is to be removed and none added, exactly as for an explicitly empty list.
   */
  lemma {:induction false} ModifiedWithoutMembersKey(g: GroupWithMembersEmails, mods: Modifications, r: GroupWithMembersEmails)
    requires "members" !in mods
    requires r == Modified(g, mods)
    ensures r.members == [] && r.membersToAdd == [] && r.membersToRemove == g.members
    ensures r == Modified(g, mods["members" := []])
  {
    DifferenceOfDisjoint(g.members, []);
  }

  // ---------------------------------------------------------------------------
  // Memberships

  /** fromEmail: a reference of type "email" to the given address. */
  function FromEmail(email: string): (m: Membership)
    ensures m.member == email && m.objectType == "email"
  {
    Membership(email, "email")
  }

  /** fromId: a reference of type "user" to the given user id. */
  function FromId(id: string): (m: Membership)
    ensures m.member == id && m.objectType == "user"
  {
    Membership(id, "user")
  }

  /** The two factories tag differently, so an email reference is never a user reference. */
  lemma {:induction false} MembershipFactories(a: string, b: string)
    ensures FromEmail(a) != FromId(b)
    ensures FromEmail(a) == FromEmail(b) <==> a == b
  {
  }

  /** One email reference per address, in the same order. */
  function FromEmails(emails: seq<string>): (ms: seq<Membership>)
    ensures |ms| == |emails|
    ensures forall i :: 0 <= i < |emails| ==> ms[i] == FromEmail(emails[i])
  {
    if emails == [] then [] else [FromEmail(emails[0])] + FromEmails(emails[1..])
  }

  /** The identifiers the references carry, in order (getId of each). */
  function Ids(ms: seq<Membership>): (ids: seq<string>)
    ensures |ids| == |ms|
    ensures forall i :: 0 <= i < |ms| ==> ids[i] == ms[i].member
  {
    if ms == [] then [] else [ms[0].member] + Ids(ms[1..])
  }

  /** Reading the identifiers back from email references gives the addresses they were made from. */
  lemma {:induction false} IdsOfFromEmails(emails: seq<string>)
    ensures Ids(FromEmails(emails)) == emails
  {
  }

  /** getMembersToAdd: one email reference per email to add, same length and order. */
  function MembersToAdd(g: GroupWithMembersEmails): (ms: seq<Membership>)
    ensures |ms| == |g.membersToAdd|
    ensures forall i :: 0 <= i < |ms| ==> ms[i].objectType == "email" && ms[i].member == g.membersToAdd[i]
  {
    FromEmails(g.membersToAdd)
  }

  /** getMembersToRemove: one email reference per email to remove, same length and order. */
  function MembersToRemove(g: GroupWithMembersEmails): (ms: seq<Membership>)
    ensures |ms| == |g.membersToRemove|
    ensures forall i :: 0 <= i < |ms| ==> ms[i].objectType == "email" && ms[i].member == g.membersToRemove[i]
  {
    FromEmails(g.membersToRemove)
  }

  /** The references to add and to remove read back as exactly the pending add and remove lists. */
  lemma {:induction false} PendingMembershipIds(g: GroupWithMembersEmails)
    ensures Ids(MembersToAdd(g)) == g.membersToAdd
    ensures Ids(MembersToRemove(g)) == g.membersToRemove
  {
    IdsOfFromEmails(g.membersToAdd);
    IdsOfFromEmails(g.membersToRemove);
  }

  // ---------------------------------------------------------------------------
  // Datasets

  /** toDatasets: the base fields and the member list; the pending lists are not exposed. */
  function ToDatasets(g: GroupWithMembersEmails): (d: map<string, Dataset>)
    ensures d.Keys == {"id", "name", "email", "creator", "members"}
    ensures d["id"] == Value(g.id) && d["name"] == Value(g.name) && d["email"] == Value(g.email)
    ensures d["creator"] == Value(g.creator) && d["members"] == Values(g.members)
  {
    map["id" := Value(g.id), "name" := Value(g.name), "email" := Value(g.email),
        "creator" := Value(g.creator), "members" := Values(g.members)]
  }

  /** Groups that differ only in their pending lists have the same datasets. */
  lemma {:induction false} DatasetsIgnorePending(g: GroupWithMembersEmails, h: GroupWithMembersEmails)
    requires g.id == h.id && g.name == h.name && g.email == h.email && g.creator == h.creator
    requires g.members == h.members
    ensures ToDatasets(g) == ToDatasets(h)
  {
  }
}
