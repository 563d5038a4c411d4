/** The user administration list: the search filter over the fetched
    users and the state of the delete confirmation modal. */
module UserList {
  import opened Wrappers
  import opened Text
  import opened Seqs

  datatype ListUser = ListUser(id: string, email: string, companyName: Option<string>, ico: Option<string>)

  /** `value?.toLowerCase().includes(query)`: a missing value never matches. */
  predicate OptionalIncludes(value: Option<string>, query: string) {
    value.Some? && Includes(ToLower(value.value), query)
  }

  /** The test applied to each user, for the lower-cased query. */
  predicate Matches(u: ListUser, query: string) {
    OptionalIncludes(u.companyName, query)
    || Includes(ToLower(u.email), query)
    || OptionalIncludes(u.ico, query)
  }

  /** The search effect: a query that is blank after trimming shows every
      user; otherwise the untrimmed query, lower-cased, must occur in the
      lower-cased company name, e-mail or registration number. */
  function FilterUsers(users: seq<ListUser>, searchQuery: string): (r: seq<ListUser>)
    ensures Trim(searchQuery) == "" ==> r == users
    ensures Trim(searchQuery) != "" ==>
      forall u :: u in r <==> u in users && Matches(u, ToLower(searchQuery))
    ensures IsSubsequence(r, users)
  {
    if Trim(searchQuery) == "" then
      FilterAll(users, u => true);
      FilterIsSubsequence(users, u => true);
      users
    else
      var query := ToLower(searchQuery);
      FilterIsSubsequence(users, u => Matches(u, query));
      Filter(users, u => Matches(u, query))
  }

  /** A query of blanks only shows every user, however many blanks. */
  lemma BlankQueryShowsAll(users: seq<ListUser>, searchQuery: string)
    requires AllSpace(searchQuery)
    ensures FilterUsers(users, searchQuery) == users
  {
    TrimEmpty(searchQuery);
  }

  /** A user with neither company name nor registration number is found
      only through the e-mail. */
  lemma OnlyEmailWhenAnonymous(users: seq<ListUser>, searchQuery: string, u: ListUser)
    requires Trim(searchQuery) != "" && u in users
    requires u.companyName.None? && u.ico.None?
    ensures u in FilterUsers(users, searchQuery) <==> Includes(ToLower(u.email), ToLower(searchQuery))
  {
  }

  /** What the delete request answered. */
  datatype DeleteInfo = DeleteInfo(deleted: bool, soft: bool, invoiceCount: Option<nat>)

  /** The three pieces of state behind the delete modal. */
  datatype DeleteModal = DeleteModal(open: bool, userToDelete: Option<ListUser>, deleteInfo: Option<DeleteInfo>)

  /** `handleDeleteClick(user)`. */
  function DeleteClick(st: DeleteModal, u: ListUser): (r: DeleteModal)
    ensures r.open && r.userToDelete == Some(u) && r.deleteInfo.None?
  {
    DeleteModal(true, Some(u), None)
  }

  /** The modal's `onClose`. */
  function CloseDelete(st: DeleteModal): (r: DeleteModal)
    ensures !r.open && r.userToDelete.None? && r.deleteInfo.None?
  {
    DeleteModal(false, None, None)
  }

  /** `handleDeleteConfirm`; `answer` is the server's answer, `None` when
      the request fails.  Without a user nothing happens; a failed request
      changes nothing; an answer is kept while the modal stays open, where it
      replaces the confirmation buttons until the delayed reset, which
      changes the state exactly as `CloseDelete` does. */
  function ConfirmDelete(st: DeleteModal, answer: Option<DeleteInfo>): (r: DeleteModal)
    ensures st.userToDelete.None? || answer.None? ==> r == st
    ensures st.userToDelete.Some? && answer.Some? ==>
      r.open == st.open && r.userToDelete == st.userToDelete && r.deleteInfo == answer
  {
    if st.userToDelete.None? || answer.None? then st
    else st.(deleteInfo := answer)
  }

  /** The cancel button: closes the modal and forgets the user, but keeps
      an earlier answer. */
  function CancelDelete(st: DeleteModal): (r: DeleteModal)
    ensures !r.open && r.userToDelete.None? && r.deleteInfo == st.deleteInfo
  {
    st.(open := false, userToDelete := None)
  }

  /** `isOpen={deleteModalOpen && !!userToDelete}`. */
  predicate Shown(st: DeleteModal) {
    st.open && st.userToDelete.Some?
  }

  /** A click shows the modal for that user; a close hides it and forgets
      the user and the answer, whatever the state was. */
  lemma ModalLifecycle(st: DeleteModal, u: ListUser)
    ensures Shown(DeleteClick(st, u)) && DeleteClick(st, u).userToDelete == Some(u)
    ensures !Shown(CloseDelete(st))
    ensures CloseDelete(DeleteClick(st, u)) == CloseDelete(st)
  {
  }

  /** A confirmed delete keeps the modal shown for the same user, now with
      the answer in place of the buttons; the delayed reset then hides it. */
  lemma ConfirmThenClose(st: DeleteModal, u: ListUser, answer: DeleteInfo)
    ensures var shown := ConfirmDelete(DeleteClick(st, u), Some(answer));
      && Shown(shown) && shown.userToDelete == Some(u) && shown.deleteInfo == Some(answer)
      && !Shown(CloseDelete(shown))
  {
  }

  /** Cancelling hides the modal whatever its state. */
  lemma CancelHides(st: DeleteModal)
    ensures !Shown(CancelDelete(st))
  {
  }
}
