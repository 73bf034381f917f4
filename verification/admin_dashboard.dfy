/** The user administration page (src/pages/AdminDashboard.jsx): the name and
    status filters, deleting a user, the two-click edit-and-save flow, and the
    paged view. */
module AdminDashboard {
  import opened Common
  import opened Pagination

  /** A user row. The optional profile fields can be `null` on the server. */
  datatype User = User(id: int, firstName: string, lastName: string, email: string,
                       title: Option<string>, company: Option<string>, phone: Option<string>,
                       emailVerified: bool, role: string)

  // ---------------------------------------------------------------------------
  // Filtering
  // ---------------------------------------------------------------------------

  /** The name search: the lower-cased `"first last"` contains the lower-cased
      query. */
  predicate NameMatches(u: User, query: string) {
    Contains(ToLower(u.firstName + " " + u.lastName), ToLower(query))
  }

  /** The status tabs: "all" keeps everyone, "active" keeps verified users,
      and any other value keeps the unverified ones. */
  predicate StatusMatches(u: User, status: string) {
    if status == "all" then true
    else if status == "active" then u.emailVerified
    else !u.emailVerified
  }

  /** `filteredUsers`: the users passing both the search and the status tab,
      in their original order. */
  function FilterUsers(users: seq<User>, query: string, status: string): (r: seq<User>)
    ensures forall i :: 0 <= i < |r| ==> r[i] in users && NameMatches(r[i], query) && StatusMatches(r[i], status)
    ensures forall i :: 0 <= i < |users| && NameMatches(users[i], query) && StatusMatches(users[i], status)
                        ==> users[i] in r
    ensures forall u :: multiset(r)[u] == if NameMatches(u, query) && StatusMatches(u, status) then multiset(users)[u] else 0
    ensures Subsequence(r, users)
  {
    FilterCountsAll(users, (u: User) => NameMatches(u, query) && StatusMatches(u, status));
    Filter(users, (u: User) => NameMatches(u, query) && StatusMatches(u, status))
  }

  /** The empty query matches every name. */
  lemma EmptyQueryMatchesAll(u: User)
    ensures NameMatches(u, "")
  {
    assert OccursAt(ToLower(u.firstName + " " + u.lastName), ToLower(""), 0);
  }

  /** The three tabs split the users: "active" and any other tab keep
      complementary sets, and "all" keeps both. */
  lemma StatusTabsPartition(u: User, other: string)
    requires other != "all" && other != "active"
    ensures StatusMatches(u, "all")
    ensures StatusMatches(u, "active") != StatusMatches(u, other)
  {
  }

  // ---------------------------------------------------------------------------
  // Delete
  // ---------------------------------------------------------------------------

  /** The delete and update endpoints' answer. */
  datatype Reply = RequestFailed | Replied(status: string)

  predicate Succeeded(reply: Reply) {
    reply.Replied? && reply.status == "success"
  }

  /** `handleDeleteUser`: on success exactly the users with that id leave the
      list and the others keep their order; otherwise nothing changes. */
  function DeleteUser(users: seq<User>, id: int, reply: Reply): (r: seq<User>)
    ensures !Succeeded(reply) ==> r == users
    ensures Succeeded(reply) ==>
              && (forall i :: 0 <= i < |r| ==> r[i].id != id && r[i] in users)
              && (forall i :: 0 <= i < |users| && users[i].id != id ==> users[i] in r)
              && (forall u :: multiset(r)[u] == if u.id != id then multiset(users)[u] else 0)
              && Subsequence(r, users)
  {
    FilterCountsAll(users, (u: User) => u.id != id);
    if Succeeded(reply) then Filter(users, (u: User) => u.id != id) else users
  }

  // ---------------------------------------------------------------------------
  // Edit and save
  // ---------------------------------------------------------------------------

  /** The page state that editing touches: the list and the user being edited
      (a working copy whose fields the inputs change). */
  datatype Admin = Admin(users: seq<User>, editing: Option<User>)

  /** `users.find(u => u.id === id)`: the first user with that id. */
  function FindUser(users: seq<User>, id: int): (r: Option<User>)
    ensures r.None? <==> forall i :: 0 <= i < |users| ==> users[i].id != id
    ensures r.Some? ==> r.value in users && r.value.id == id
    ensures r.Some? ==> exists k :: 0 <= k < |users| && users[k] == r.value
                                    && forall i :: 0 <= i < k ==> users[i].id != id
  {
    if users == [] then None
    else if users[0].id == id then Some(users[0])
    else
      var rest := FindUser(users[1..], id);
      if rest.Some? then
        var k :| 0 <= k < |users[1..]| && users[1..][k] == rest.value
                 && forall i :: 0 <= i < k ==> users[1..][i].id != id;
        assert users[k + 1] == rest.value;
        rest
      else rest
  }

  /** The fields the save sends, taken from the working copy, merged into a
      row: `{ ...user, ...userData }`. */
  function MergeEdits(u: User, edited: User): (r: User)
    ensures r.id == u.id && r.role == u.role
    ensures r.firstName == edited.firstName && r.lastName == edited.lastName && r.email == edited.email
    ensures r.emailVerified == edited.emailVerified
    ensures r.title == Some(OrEmpty(edited.title)) && r.company == Some(OrEmpty(edited.company))
    ensures r.phone == Some(OrEmpty(edited.phone))
  {
    u.(firstName := edited.firstName, lastName := edited.lastName, email := edited.email,
       title := Some(OrEmpty(edited.title)), company := Some(OrEmpty(edited.company)),
       phone := Some(OrEmpty(edited.phone)), emailVerified := edited.emailVerified)
  }

  /** The successful save: the rows with id `target` receive the working
      copy's fields; every other row is untouched. */
  function SaveInto(users: seq<User>, target: int, edited: User): (r: seq<User>)
    ensures |r| == |users|
    ensures forall i :: 0 <= i < |r| ==> r[i].id == users[i].id
    ensures forall i :: 0 <= i < |r| && users[i].id != target ==> r[i] == users[i]
    ensures forall i :: 0 <= i < |r| && users[i].id == target ==> r[i] == MergeEdits(users[i], edited)
  {
    seq(|users|, i requires 0 <= i < |users| =>
      if users[i].id == target then MergeEdits(users[i], edited) else users[i])
  }

  /** `handleEditUser` as written: the first click selects the user; while a
      user is being edited, any click saves the working copy under the id of
      the row that was clicked. The Save button of the row being edited and
      the Edit button of every other row both call it. */
  function EditClickAsWritten(st: Admin, clicked: int, reply: Reply): (r: Admin)
    ensures st.editing.None? ==> r == Admin(st.users, FindUser(st.users, clicked))
    ensures st.editing.Some? && !Succeeded(reply) ==> r == st
    ensures st.editing.Some? && Succeeded(reply) ==>
              r.editing.None? && r.users == SaveInto(st.users, clicked, st.editing.value)
  {
    if st.editing.None? then Admin(st.users, FindUser(st.users, clicked))
    else if Succeeded(reply) then Admin(SaveInto(st.users, clicked, st.editing.value), None)
    else st
  }

  /** While Ann is being edited, clicking Edit on Bob's row and getting a
      successful reply writes Ann's name and email onto Bob. */
  lemma EditOtherRowOverwritesIt()
    ensures var ann := User(1, "Ann", "Lee", "ann@shop.com", None, None, None, true, "Admin");
            var bob := User(2, "Bob", "Ray", "bob@shop.com", None, None, None, false, "Manager");
            var st := Admin([ann, bob], Some(ann.(lastName := "Leigh")));
            var r := EditClickAsWritten(st, bob.id, Replied("success"));
            && r.users[0] == ann
            && r.users[1].id == 2 && r.users[1].firstName == "Ann" && r.users[1].email == "ann@shop.com"
  {
  }

  /** `handleEditUser` as evidently intended: a click on the row being edited
      saves it; a click on any other row (or with nothing selected) selects
      that row instead. */
  function EditClick(st: Admin, clicked: int, reply: Reply): (r: Admin)
    ensures (st.editing.None? || st.editing.value.id != clicked) ==>
              r == Admin(st.users, FindUser(st.users, clicked))
    ensures st.editing.Some? && st.editing.value.id == clicked && !Succeeded(reply) ==> r == st
    ensures st.editing.Some? && st.editing.value.id == clicked && Succeeded(reply) ==>
              r.editing.None? && r.users == SaveInto(st.users, clicked, st.editing.value)
  {
    if st.editing.None? || st.editing.value.id != clicked then Admin(st.users, FindUser(st.users, clicked))
    else if Succeeded(reply) then Admin(SaveInto(st.users, clicked, st.editing.value), None)
    else st
  }

  /** With the corrected click, a save changes only the rows of the user
      being edited, and those receive exactly the edited fields; the list
      keeps its length, order and ids. Clicking the edited row saves it and
      ends editing; clicking any other row saves nothing and selects it. */
  lemma SaveTouchesOnlyEditedUser(st: Admin, clicked: int, reply: Reply)
    requires st.editing.Some? && Succeeded(reply)
    ensures var r := EditClick(st, clicked, reply);
            && |r.users| == |st.users|
            && (forall i :: 0 <= i < |r.users| ==> r.users[i].id == st.users[i].id)
            && (forall i :: 0 <= i < |r.users| && st.users[i].id != st.editing.value.id ==> r.users[i] == st.users[i])
            && (forall i :: 0 <= i < |r.users| && r.users[i] != st.users[i] ==>
                  r.users[i] == MergeEdits(st.users[i], st.editing.value))
            && (clicked == st.editing.value.id ==>
                  && r.editing.None?
                  && forall i :: 0 <= i < |r.users| && st.users[i].id == clicked ==>
                       r.users[i] == MergeEdits(st.users[i], st.editing.value))
            && (clicked != st.editing.value.id ==>
                  r.users == st.users && r.editing == FindUser(st.users, clicked))
  {
  }

  /** `cancelEdit` */
  function CancelEdit(st: Admin): (r: Admin)
    ensures r.editing.None? && r.users == st.users
  {
    st.(editing := None)
  }

  // ---------------------------------------------------------------------------
  // Paging
  // ---------------------------------------------------------------------------

  /** The rows shown: the current page of the filtered users. */
  function CurrentUsers(users: seq<User>, query: string, status: string, v: PageView): (r: seq<User>)
    requires v.perPage > 0
    ensures |r| <= v.perPage
    ensures forall i :: 0 <= i < |r| ==> r[i] in users && NameMatches(r[i], query) && StatusMatches(r[i], status)
  {
    var f := FilterUsers(users, query, status);
    var r := PageSlice(f, v.page, v.perPage);
    assert forall i :: 0 <= i < |r| ==> r[i] in f;
    r
  }
}
