# Group membership diff of the OpenPaaS LSC connector

This project models the group bean `GroupWithMembersEmails` of the LSC OpenPaaS
plugin. The bean carries a group as the synchronization engine sees it: id,
name, email, creator and the members as plain email addresses. From the
engine's modifications it builds the desired group. That means a new name and
email (or the old ones), the new member list, and two pending lists: the emails
to add to the backend group and the emails to remove from it. The pending
emails are handed to the backend as typed membership references.

Modules:

- `Wrappers` (`wrappers.dfy`): `Option`, the model of a Java reference that may be null.
- `Lists` (`lists.dfy`): `Difference`, the result of `List.removeAll`, with its
  properties. It also holds `ArrayList`, a class whose `RemoveAll` method removes
  elements in place with a loop and is proved to leave exactly the `Difference`.
- `Beans` (`beans.dfy`): the backend's member record (`EmailMember`, whose
  `getEmail` returns its `member` field) and the base fields of a fetched `Group`.
- `MembersEmails` (`group_with_members_emails.dfy`): the bean itself. Its two
  constructors, `fromModifications`, `modify`, the typed `Membership` references
  and `toDatasets`.

`modify` is a method. Like the source, it copies the new and current member lists
into fresh mutable lists and calls `RemoveAll` on each. It is proved equal to the
function `Modified`, and the diff properties are proved as lemmas about `Modified`.
The other operations only build immutable values, so they are functions over a datatype.
The modifications map is `map<string, seq<string>>`. Every value is already a
string, so `String.valueOf` is the identity.

Behaviour of the code worth noting; the model follows it:

- An absent `members` key is read as an empty list, not as "keep the members", so
  `modify` schedules every current member for removal (`ModifiedWithoutMembersKey`).
- Members are lists, not sets: duplicates and order survive in the pending lists,
  and `removeAll` drops every copy of a removed email (`ModifiedMembersToAdd`,
  `ModifiedMembersToRemove`).
- Every pending email is tagged `"email"`; nothing resolves it to a user or a group
  (`MembersToAdd`, `MembersToRemove`). Only `Membership.fromId` makes a `"user"`
  reference, and nothing in the code calls it.

## Model

| member | source | states |
|---|---|---|
| `Lists.Difference` | src/main/java/org/lsc/plugins/connectors/openpaas/beans/GroupWithMembersEmails.java:103-106 | what is left of a list after `removeAll` is never longer than the list |
| `Lists.DifferenceConcat` | src/main/java/org/lsc/plugins/connectors/openpaas/beans/GroupWithMembersEmails.java:103-106 | `removeAll` works element by element: the difference of a concatenation is the concatenation of the differences |
| `Lists.DifferenceAppend` | src/main/java/org/lsc/plugins/connectors/openpaas/beans/GroupWithMembersEmails.java:103-106 | appending an element to a list appends it to the difference exactly when the removed list does not hold it |
| `Lists.DifferenceMultiplicity` | src/main/java/org/lsc/plugins/connectors/openpaas/beans/GroupWithMembersEmails.java:103-106 | duplicates are kept: an element of the removed list occurs zero times, any other element as often as in the original list |
| `Lists.DifferenceMembership` | src/main/java/org/lsc/plugins/connectors/openpaas/beans/GroupWithMembersEmails.java:103-106 | an element survives `removeAll` if and only if the list holds it and the removed list does not |
| `Lists.DifferenceElements` | src/main/java/org/lsc/plugins/connectors/openpaas/beans/GroupWithMembersEmails.java:103-106 | as sets, the list difference is the set difference of the element sets |
| `Lists.DifferenceEmpty` | src/main/java/org/lsc/plugins/connectors/openpaas/beans/GroupWithMembersEmails.java:103-106 | the difference is empty if and only if every element of the list occurs in the removed list |
| `Lists.DifferenceSubsequence` | src/main/java/org/lsc/plugins/connectors/openpaas/beans/GroupWithMembersEmails.java:103-106 | the difference keeps the original order: it is a subsequence of the list |
| `Lists.DifferenceOfDisjoint` | src/main/java/org/lsc/plugins/connectors/openpaas/beans/GroupWithMembersEmails.java:103-106 | removing elements none of which occur leaves the list unchanged, with the same length |
| `Lists.ArrayList.constructor` | src/main/java/org/lsc/plugins/connectors/openpaas/beans/GroupWithMembersEmails.java:103-105 | `Lists.newArrayList` gives a fresh list holding the given elements |
| `Lists.ArrayList.RemoveAll` | src/main/java/org/lsc/plugins/connectors/openpaas/beans/GroupWithMembersEmails.java:104-106 | after the in-place removal the list holds exactly the difference of its old contents and the argument |
| `MembersEmails.EmailsOf` | src/main/java/org/lsc/plugins/connectors/openpaas/beans/GroupWithMembersEmails.java:74-76 | mapping member records to their emails keeps length and order, and each email is the record's `member` field |
| `MembersEmails.FromGroup` | src/main/java/org/lsc/plugins/connectors/openpaas/beans/GroupWithMembersEmails.java:69-79 | the public constructor copies id, name, email and creator, maps the members to their emails in order, and leaves nothing to add or remove |
| `MembersEmails.Assemble` | src/main/java/org/lsc/plugins/connectors/openpaas/beans/GroupWithMembersEmails.java:81-89 | the private constructor stores every field as given and always sets the creator to null; `FromModifications` and `Modified` build through it |
| `MembersEmails.FirstValueAsString` | src/main/java/org/lsc/plugins/connectors/openpaas/beans/GroupWithMembersEmails.java:110-117 | the first value listed under the key when the key is present with a non-empty list, otherwise the given default (the keys `name` and `email` are read through it, see `FromModifications` and `ModifiedBaseFields`) |
| `MembersEmails.GetMembers` | src/main/java/org/lsc/plugins/connectors/openpaas/beans/GroupWithMembersEmails.java:119-125 | the list under `members` when that key is present, otherwise the empty list; an absent key and an empty list give the same result (see `ModifiedWithoutMembersKey`) |
| `MembersEmails.FromModifications` | src/main/java/org/lsc/plugins/connectors/openpaas/beans/GroupWithMembersEmails.java:81-97 | a group built from modifications has no id and no creator; name and email are the first listed value, or null when the key is absent or its list empty; members are the listed ones, or none; nothing is pending |
| `MembersEmails.Modified` | src/main/java/org/lsc/plugins/connectors/openpaas/beans/GroupWithMembersEmails.java:99-108 | the group `modify` returns: id kept, creator null, members the listed ones, and pending lists no longer than the lists they come from; its diff properties are the `Modified*` lemmas below |
| `MembersEmails.Modify` | src/main/java/org/lsc/plugins/connectors/openpaas/beans/GroupWithMembersEmails.java:99-108 | `modify`, which copies the lists and runs `removeAll` on them in place, returns exactly the group `Modified` describes |
| `MembersEmails.ModifiedBaseFields` | src/main/java/org/lsc/plugins/connectors/openpaas/beans/GroupWithMembersEmails.java:99-117 | `modify` keeps the id and clears the creator; name and email are the first listed value, or the current one when the key is absent or its list empty; the members are the listed ones, or none |
| `MembersEmails.ModifiedMembersToAdd` | src/main/java/org/lsc/plugins/connectors/openpaas/beans/GroupWithMembersEmails.java:102-104 | the add list holds exactly the new members that are not current members, in new-list order, each as often as the new list has it |
| `MembersEmails.ModifiedMembersToRemove` | src/main/java/org/lsc/plugins/connectors/openpaas/beans/GroupWithMembersEmails.java:105-106 | the remove list holds exactly the current members that are not new members, in current-list order, each as often as the current list has it; it shares no element with the add list |
| `MembersEmails.ModifiedKeepsDiffInvariant` | src/main/java/org/lsc/plugins/connectors/openpaas/beans/GroupWithMembersEmails.java:102-107 | nothing to add is a current member; everything to remove is a current member and not a new one; as sets, current minus removed plus added is the new member list |
| `MembersEmails.ModifiedNoDiffIffSameMembers` | src/main/java/org/lsc/plugins/connectors/openpaas/beans/GroupWithMembersEmails.java:102-106 | both pending lists are empty if and only if the new members and the current members are the same set |
| `MembersEmails.ModifiedTwice` | src/main/java/org/lsc/plugins/connectors/openpaas/beans/GroupWithMembersEmails.java:99-108 | modifying the result again with the same modifications keeps id, name, email and members, and schedules nothing to add or remove |
| `MembersEmails.ModifiedWithoutMembersKey` | src/main/java/org/lsc/plugins/connectors/openpaas/beans/GroupWithMembersEmails.java:119-125 | without a `members` key the new list is empty, so every current member is to be removed and none added; the result is the same as for an explicitly empty list |
| `MembersEmails.FromEmail` | src/main/java/org/lsc/plugins/connectors/openpaas/beans/GroupWithMembersEmails.java:178-180 | `fromEmail` gives a reference of type `"email"` whose id is the email |
| `MembersEmails.FromId` | src/main/java/org/lsc/plugins/connectors/openpaas/beans/GroupWithMembersEmails.java:182-184 | `fromId` gives a reference of type `"user"` whose id is the given id |
| `MembersEmails.MembershipFactories` | src/main/java/org/lsc/plugins/connectors/openpaas/beans/GroupWithMembersEmails.java:178-184 | an email reference never equals a user reference, and two email references are equal exactly when they come from the same email |
| `MembersEmails.FromEmails` | src/main/java/org/lsc/plugins/connectors/openpaas/beans/GroupWithMembersEmails.java:158-160 | one email reference per address, same length and order |
| `MembersEmails.Ids` | src/main/java/org/lsc/plugins/connectors/openpaas/beans/GroupWithMembersEmails.java:190-192 | `getId` over a list of references: one id per reference, in order, each the reference's `member` field |
| `MembersEmails.IdsOfFromEmails` | src/main/java/org/lsc/plugins/connectors/openpaas/beans/GroupWithMembersEmails.java:178-192 | reading `getId` back from email references gives exactly the addresses they were made from |
| `MembersEmails.MembersToAdd` | src/main/java/org/lsc/plugins/connectors/openpaas/beans/GroupWithMembersEmails.java:157-161 | one reference per email to add, same length and order, each of type `"email"` with the email as id |
| `MembersEmails.MembersToRemove` | src/main/java/org/lsc/plugins/connectors/openpaas/beans/GroupWithMembersEmails.java:163-167 | one reference per email to remove, same length and order, each of type `"email"` with the email as id |
| `MembersEmails.PendingMembershipIds` | src/main/java/org/lsc/plugins/connectors/openpaas/beans/GroupWithMembersEmails.java:157-167 | the ids of the references to add and to remove are exactly the pending add and remove lists |
| `MembersEmails.ToDatasets` | src/main/java/org/lsc/plugins/connectors/openpaas/beans/GroupWithMembersEmails.java:127-135 | the datasets hold exactly the keys id, name, email, creator and members, the last one holding the member list |
| `MembersEmails.DatasetsIgnorePending` | src/main/java/org/lsc/plugins/connectors/openpaas/beans/GroupWithMembersEmails.java:127-135 | the pending add and remove lists do not show in the datasets: groups that differ only there have equal datasets |

## Left out

- The service class `OpenpaasGroupDstService` is not part of this model. Its constructor checks the framework's configuration. `getListPivots` wraps one HTTP call. `apply` and `getBean` only throw "not implemented", so nothing in the code submits the pending lists.
- `OpenpaasDao` is not part of this model: it is an HTTP client with basic authentication.
- Resolving an email to a user, a group or a plain email is not modelled, because the code does not do it. The code also has no empty-batch short-circuit and no reconciliation steps.
- `Group.members` and `toDatasets` of `Group` and `EmailMember` are not modelled: the bean ignores the first, and the others are mapping into the framework.
- The timestamps, the JSON annotations and `LscDatasets` are not modelled. `LscDatasets` is a framework container, so the model is a map from key to value, and a null value is stored as `None`.
- Member emails are taken to be non-null. In the backend's member record the email field may be null, and the public constructor would keep that null in the member list. `modify` would then keep the null in the remove list, because `removeAll` only drops the new members, and `ImmutableList.copyOf` would throw a `NullPointerException`. The model has no null member email, so it does not capture this failure of `modify`.
- `String.valueOf` on values that are not strings is not modelled. Every modification value is already a string.
- The getters of the bean, of `Membership` and of the member record (`getEmail`) are not modelled as separate members, because each one reads a datatype field.
