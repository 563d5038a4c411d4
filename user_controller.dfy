/** The user administration handlers of the server over the user table:
    create (e-mails are unique), update (the password changes only when a
    non-blank one is given), delete (soft when the user has invoices, hard
    otherwise), the list of live users ordered by company name, and the
    lookup by id.  The table is a map from id to row plus the order in
    which the database holds the rows. */
module UserController {
  import opened Wrappers
  import opened Text
  import opened Seqs

  /** The optional text columns of a user; `None` is `null`.  As a request
      body, `None` is an absent field. */
  datatype Profile = Profile(
    companyName: Option<string>,
    ico: Option<string>,
    dic: Option<string>,
    address: Option<string>,
    phone: Option<string>,
    bankAccount: Option<string>)

  /** A row of the user table.  `deletedAt` is the soft-delete time stamp. */
  datatype User = User(
    id: string,
    email: string,
    passwordHash: string,
    profile: Profile,
    isVatPayer: bool,
    deletedAt: Option<int>)

  /** The columns the handlers `select`: never the password. */
  datatype PublicUser = PublicUser(id: string, email: string, profile: Profile, isVatPayer: bool)

  function Public(u: User): (p: PublicUser)
    ensures p.id == u.id && p.email == u.email && p.profile == u.profile && p.isVatPayer == u.isVatPayer
  {
    PublicUser(u.id, u.email, u.profile, u.isVatPayer)
  }

  /** What `getUserById` returns: the public columns and `deletedAt`. */
  datatype Detail = Detail(user: PublicUser, deletedAt: Option<int>)

  /** The HTTP answers of the handlers. */
  datatype Response =
    | Created(user: PublicUser)
    | Updated(user: PublicUser)
    | BadRequest(message: string)
    | NotFound
    | Deleted(soft: bool, invoiceCount: Option<nat>)
    | ServerError

  /** An update body's profile over the stored one: absent fields keep
      their value. */
  function MergeProfile(stored: Profile, input: Profile): (p: Profile)
    ensures input.companyName.Some? ==> p.companyName == input.companyName
    ensures input.companyName.None? ==> p.companyName == stored.companyName
    ensures input.ico.Some? ==> p.ico == input.ico
    ensures input.ico.None? ==> p.ico == stored.ico
    ensures input.dic.Some? ==> p.dic == input.dic
    ensures input.dic.None? ==> p.dic == stored.dic
    ensures input.address.Some? ==> p.address == input.address
    ensures input.address.None? ==> p.address == stored.address
    ensures input.phone.Some? ==> p.phone == input.phone
    ensures input.phone.None? ==> p.phone == stored.phone
    ensures input.bankAccount.Some? ==> p.bankAccount == input.bankAccount
    ensures input.bankAccount.None? ==> p.bankAccount == stored.bankAccount
  {
    Profile(
      if input.companyName.Some? then input.companyName else stored.companyName,
      if input.ico.Some? then input.ico else stored.ico,
      if input.dic.Some? then input.dic else stored.dic,
      if input.address.Some? then input.address else stored.address,
      if input.phone.Some? then input.phone else stored.phone,
      if input.bankAccount.Some? then input.bankAccount else stored.bankAccount)
  }

  /** `password && password.trim() !== ''`: a password that counts. */
  predicate GivenPassword(password: Option<string>) {
    password.Some? && Trim(password.value) != ""
  }

  /** The stored hash after an update: a given password is hashed, a
      missing, empty or blank one keeps the old hash. */
  function NewPasswordHash(stored: string, password: Option<string>, hash: string -> string): (h: string)
    ensures GivenPassword(password) ==> h == hash(password.value)
    ensures !GivenPassword(password) ==> h == stored
  {
    if GivenPassword(password) then hash(password.value) else stored
  }

  /** A password of blanks only never replaces the stored one. */
  lemma BlankPasswordKeepsHash(stored: string, password: string, hash: string -> string)
    requires AllSpace(password)
    ensures NewPasswordHash(stored, Some(password), hash) == stored
  {
    TrimEmpty(password);
  }

  /** `order` without `id`. */
  function Without(order: seq<string>, id: string): (r: seq<string>)
    ensures forall x :: x in r <==> x in order && x != id
  {
    if order == [] then []
    else (if order[0] == id then [] else [order[0]]) + Without(order[1..], id)
  }

  predicate Distinct(order: seq<string>) {
    forall i, j :: 0 <= i < j < |order| ==> order[i] != order[j]
  }

  /** Removing an id keeps the others distinct. */
  lemma {:induction false} WithoutDistinct(order: seq<string>, id: string)
    requires Distinct(order)
    ensures Distinct(Without(order, id))
  {
    if order != [] {
      assert Distinct(order[1..]) by {
        forall i, j | 0 <= i < j < |order| - 1 ensures order[1..][i] != order[1..][j] {
          assert order[1..][i] == order[i + 1] && order[1..][j] == order[j + 1];
        }
      }
      WithoutDistinct(order[1..], id);
      var rest := Without(order[1..], id);
      assert order[0] !in order[1..];
      assert order[0] !in rest;
      var r := Without(order, id);
      if order[0] != id {
        assert r == [order[0]] + rest;
        forall i, j | 0 <= i < j < |r| ensures r[i] != r[j] {
          if i == 0 {
            assert r[j] == rest[j - 1];
          } else {
            assert r[i] == rest[i - 1] && r[j] == rest[j - 1];
          }
        }
      } else {
        assert r == rest;
      }
    }
  }

  // ---------------------------------------------------------------------
  // Listing order
  // ---------------------------------------------------------------------

  /** Lexicographic order on strings, by character code. */
  predicate StrLeq(a: string, b: string) {
    a == [] || (b != [] && (a[0] < b[0] || (a[0] == b[0] && StrLeq(a[1..], b[1..]))))
  }

  lemma {:induction false} StrLeqTotal(a: string, b: string)
    ensures StrLeq(a, b) || StrLeq(b, a)
  {
    if a != [] && b != [] && a[0] == b[0] {
      StrLeqTotal(a[1..], b[1..]);
    }
  }

  lemma {:induction false} StrLeqTransitive(a: string, b: string, c: string)
    requires StrLeq(a, b) && StrLeq(b, c)
    ensures StrLeq(a, c)
  {
    if a != [] && b != [] && c != [] && a[0] == b[0] && b[0] == c[0] {
      StrLeqTransitive(a[1..], b[1..], c[1..]);
    }
  }

  /** `orderBy: { companyName: 'asc' }`, `null` company names last. */
  predicate KeyLeq(a: Option<string>, b: Option<string>) {
    if a.None? then b.None?
    else b.None? || StrLeq(a.value, b.value)
  }

  lemma KeyLeqTotal(a: Option<string>, b: Option<string>)
    ensures KeyLeq(a, b) || KeyLeq(b, a)
  {
    if a.Some? && b.Some? {
      StrLeqTotal(a.value, b.value);
    }
  }

  lemma KeyLeqTransitive(a: Option<string>, b: Option<string>, c: Option<string>)
    requires KeyLeq(a, b) && KeyLeq(b, c)
    ensures KeyLeq(a, c)
  {
    if a.Some? && b.Some? && c.Some? {
      StrLeqTransitive(a.value, b.value, c.value);
    }
  }

  predicate InOrder(x: PublicUser, y: PublicUser) {
    KeyLeq(x.profile.companyName, y.profile.companyName)
  }

  /** Each user is in order with the next one. */
  predicate Sorted(list: seq<PublicUser>) {
    forall i :: 0 <= i < |list| - 1 ==> InOrder(list[i], list[i + 1])
  }

  /** Sorted neighbours make every earlier user in order with every later
      one. */
  lemma {:induction false} SortedAllPairs(list: seq<PublicUser>)
    requires Sorted(list)
    ensures forall i, j :: 0 <= i < j < |list| ==> InOrder(list[i], list[j])
  {
    if |list| > 1 {
      SortedAllPairs(list[1..]);
      forall j | 1 < j < |list| ensures InOrder(list[0], list[j]) {
        assert list[1..][j - 1] == list[j];
        KeyLeqTransitive(list[0].profile.companyName, list[1].profile.companyName, list[j].profile.companyName);
      }
    }
  }

  /** `x` put into a sorted list before the first user it is in order with. */
  function Insert(x: PublicUser, list: seq<PublicUser>): (r: seq<PublicUser>)
    ensures multiset(r) == multiset(list) + multiset{x}
    ensures r != [] && (r[0] == x || (list != [] && r[0] == list[0]))
    ensures Sorted(list) ==> Sorted(r)
  {
    if list == [] then [x]
    else if InOrder(x, list[0]) then [x] + list
    else
      var rest := Insert(x, list[1..]);
      KeyLeqTotal(x.profile.companyName, list[0].profile.companyName);
      assert list == [list[0]] + list[1..];
      assert Sorted(list) ==> Sorted(list[1..]) by {
        if Sorted(list) {
          forall i | 0 <= i < |list[1..]| - 1 ensures InOrder(list[1..][i], list[1..][i + 1]) {
            assert list[1..][i] == list[i + 1] && list[1..][i + 1] == list[i + 2];
          }
        }
      }
      [list[0]] + rest
  }

  /** The live rows in table order, as the `select` shows them. */
  function ActiveRows(users: map<string, User>, order: seq<string>): (r: seq<PublicUser>)
    requires forall k :: k in users ==> users[k].id == k
    ensures forall p :: p in r ==> p.id in users && users[p.id].deletedAt.None? && p == Public(users[p.id])
    ensures forall id :: id in order && id in users && users[id].deletedAt.None? ==> Public(users[id]) in r
  {
    if order == [] then []
    else
      var id := order[|order| - 1];
      assert forall x :: x in order ==> x in order[..|order| - 1] || x == id;
      ActiveRows(users, order[..|order| - 1])
        + (if id in users && users[id].deletedAt.None? then [Public(users[id])] else [])
  }

  /** One more id of the table order adds at most its own row. */
  lemma ActiveRowsStep(users: map<string, User>, order: seq<string>, i: int)
    requires forall k :: k in users ==> users[k].id == k
    requires 0 <= i < |order|
    ensures ActiveRows(users, order[..i + 1]) == ActiveRows(users, order[..i])
      + (if order[i] in users && users[order[i]].deletedAt.None? then [Public(users[order[i]])] else [])
  {
    assert order[..i + 1][..i] == order[..i];
  }

  /** The user table. */
  class UserTable {
    var users: map<string, User>
    /** The ids in the order the database holds the rows. */
    var order: seq<string>
    /** bcrypt, whose salt is not part of this model. */
    const hash: string -> string

    /** Every row is filed under its own id, e-mails are unique, and
        `order` lists every id exactly once. */
    ghost predicate Valid()
      reads this
    {
      && (forall k :: k in users ==> users[k].id == k)
      && (forall a, b :: a in users && b in users && a != b ==> users[a].email != users[b].email)
      && Distinct(order)
      && (forall i :: 0 <= i < |order| ==> order[i] in users)
      && (forall k :: k in users ==> k in order)
    }

    constructor(hash: string -> string)
      ensures Valid() && users == map[] && order == [] && this.hash == hash
    {
      users := map[];
      order := [];
      this.hash := hash;
    }

    /** `findUnique({ where: { email } })` finds a row, deleted or not. */
    predicate EmailTaken(email: string)
      reads this
    {
      exists k :: k in users && users[k].email == email
    }

    /** `createUser`.  `newId` is the id the database generates. */
    method CreateUser(email: Option<string>, password: Option<string>, profile: Profile, isVatPayer: Option<bool>, newId: string)
      returns (resp: Response)
      requires Valid() && newId !in users
      modifies this
      ensures Valid()
      ensures email.None? || email.value == "" || password.None? || password.value == "" ==>
        resp == BadRequest("Email and password are required") && users == old(users) && order == old(order)
      ensures email.Some? && email.value != "" && password.Some? && password.value != "" && old(EmailTaken(email.value)) ==>
        resp == BadRequest("User with this email already exists") && users == old(users) && order == old(order)
      ensures email.Some? && email.value != "" && password.Some? && password.value != "" && !old(EmailTaken(email.value)) ==>
        var u := User(newId, email.value, hash(password.value), profile, isVatPayer.GetOr(false), None);
        && users == old(users)[newId := u]
        && order == old(order) + [newId]
        && resp == Created(Public(u))
    {
      if email.None? || email.value == "" || password.None? || password.value == "" {
        return BadRequest("Email and password are required");
      }
      if EmailTaken(email.value) {
        return BadRequest("User with this email already exists");
      }
      var u := User(newId, email.value, hash(password.value), profile, isVatPayer.GetOr(false), None);
      users := users[newId := u];
      order := order + [newId];
      resp := Created(Public(u));
    }

    /** `updateUser`.  A changed, non-empty e-mail held by any other row is
        refused; an e-mail the database's uniqueness constraint rejects
        otherwise (an empty one held by another row) is a server error. */
    method UpdateUser(id: string, email: Option<string>, password: Option<string>, profile: Profile, isVatPayer: Option<bool>)
      returns (resp: Response)
      requires Valid()
      modifies this
      ensures Valid()
      ensures order == old(order)
      ensures id !in old(users) ==> resp == NotFound && users == old(users)
      ensures id in old(users) && email.Some? && email.value != "" && email.value != old(users)[id].email
              && old(EmailTaken(email.value)) ==>
        resp == BadRequest("Email already in use") && users == old(users)
      ensures resp.Updated? ==>
        var stored := old(users)[id];
        var u := User(id, if email.Some? then email.value else stored.email,
                      NewPasswordHash(stored.passwordHash, password, hash),
                      MergeProfile(stored.profile, profile),
                      if isVatPayer.Some? then isVatPayer.value else stored.isVatPayer,
                      stored.deletedAt);
        && id in old(users)
        && users == old(users)[id := u]
        && resp == Updated(Public(u))
      ensures !resp.Updated? ==> users == old(users)
      ensures id in old(users) && (email.None? || email.value == old(users)[id].email) ==> resp.Updated?
      ensures id in old(users) && email.Some? && email.value != old(users)[id].email
              && !old(EmailTaken(email.value)) ==>
        resp.Updated?
      ensures resp == ServerError <==>
        && id in old(users) && email == Some("")
        && exists k :: k in old(users) && k != id && old(users)[k].email == ""
    {
      if id !in users {
        return NotFound;
      }
      var existing := users[id];
      if email.Some? && email.value != "" && email.value != existing.email {
        if EmailTaken(email.value) {
          return BadRequest("Email already in use");
        }
      }
      var newEmail := if email.Some? then email.value else existing.email;
      if exists k :: k in users && k != id && users[k].email == newEmail {
        return ServerError;
      }
      var u := User(id, newEmail, NewPasswordHash(existing.passwordHash, password, hash),
                    MergeProfile(existing.profile, profile),
                    if isVatPayer.Some? then isVatPayer.value else existing.isVatPayer,
                    existing.deletedAt);
      users := users[id := u];
      resp := Updated(Public(u));
    }

    /** `deleteUser`; `invoiceCount` is the number of the user's invoices
        and `now` the time stamp of a soft delete. */
    method DeleteUser(id: string, invoiceCount: nat, now: int) returns (resp: Response)
      requires Valid()
      modifies this
      ensures Valid()
      ensures id !in old(users) ==> resp == NotFound && users == old(users) && order == old(order)
      ensures id in old(users) && invoiceCount > 0 ==>
        && resp == Deleted(true, Some(invoiceCount))
        && users == old(users)[id := old(users)[id].(deletedAt := Some(now))]
        && order == old(order)
      ensures id in old(users) && invoiceCount == 0 ==>
        && resp == Deleted(false, None)
        && users == old(users) - {id}
        && order == Without(old(order), id)
    {
      if id !in users {
        return NotFound;
      }
      if invoiceCount > 0 {
        users := users[id := users[id].(deletedAt := Some(now))];
        resp := Deleted(true, Some(invoiceCount));
      } else {
        users := users - {id};
        WithoutDistinct(order, id);
        order := Without(order, id);
        forall i | 0 <= i < |order| ensures order[i] in users {
          assert order[i] in order;
        }
        resp := Deleted(false, None);
      }
    }

    /** `getUserById`: any row, deleted or not, with its `deletedAt`. */
    function GetUserById(id: string): (r: Option<Detail>)
      reads this
      requires Valid()
      ensures r.Some? <==> id in users
      ensures r.Some? ==> r.value.user.id == id && r.value.user == Public(users[id])
      ensures r.Some? ==> r.value.deletedAt == users[id].deletedAt
    {
      if id in users then Some(Detail(Public(users[id]), users[id].deletedAt)) else None
    }

    /** `getAllUsers`: the live rows, ordered by company name. */
    method GetAllUsers() returns (list: seq<PublicUser>)
      requires Valid()
      ensures multiset(list) == multiset(ActiveRows(users, order))
      ensures forall i, j :: 0 <= i < j < |list| ==> InOrder(list[i], list[j])
      ensures forall p :: p in list <==> p in ActiveRows(users, order)
    {
      list := [];
      for i := 0 to |order|
        invariant multiset(list) == multiset(ActiveRows(users, order[..i]))
        invariant Sorted(list)
      {
        var u := users[order[i]];
        ActiveRowsStep(users, order, i);
        if u.deletedAt.None? {
          list := Insert(Public(u), list);
        }
      }
      assert order[..|order|] == order;
      SortedAllPairs(list);
      forall p ensures p in list <==> p in ActiveRows(users, order) {
        assert p in list <==> p in multiset(list);
      }
    }

    /** A soft-deleted user is still found by id but no longer listed. */
    lemma SoftDeletedHidden(id: string)
      requires Valid() && id in users && users[id].deletedAt.Some?
      ensures GetUserById(id).Some?
      ensures forall p :: p in ActiveRows(users, order) ==> p.id != id
    {
    }
  }
}
