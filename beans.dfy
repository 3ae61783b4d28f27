/** The records the backend returns for a group and for one of its members. */
module Beans {
  import opened Wrappers

  /**
   * A member record as the backend lists it (EmailMember): its type tag, its
   * opaque id and, in the field named member (what getEmail returns), its email address.
   */
  datatype Member = Member(objectType: string, id: string, member: string)

  /** The base fields of a group as fetched from the backend; any of them may be null. */
  datatype Group = Group(id: Option<string>, name: Option<string>, email: Option<string>, creator: Option<string>)
}
