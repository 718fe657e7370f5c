/** The admin accounts and the requests that create, change and delete them
    (app/api/v1/admin_users.py). A request is one atomic transaction by a
    signed-in account; its session is re-read from the table every time
    (app/core/admin_auth.py:174-185). */
module AdminUsers {
  import opened Payloads
  import opened Strings

  type Id = nat

  /** A password hash, identified with the password it was made from. */
  datatype Hash = Hash(of: string)

  datatype User = User(username: string, password: Hash, isSuper: bool, isActive: bool)

  /** The accounts, the accounts that audit-log rows refer to, and how many ids
      were handed out so far. */
  datatype Table = Table(users: map<Id, User>, audited: set<Id>, issued: nat)

  datatype Changes = Changes(username: Option<string>, password: Option<string>, current: Option<string>,
                             isSuper: Option<bool>, isActive: Option<bool>)

  /** A target is None when the text in the URL is no id at all. */
  datatype Operation =
    | Create(username: string, password: string, isSuper: bool)
    | Update(target: Option<Id>, changes: Changes)
    | Delete(target: Option<Id>)

  /** Status 401 for NoSession, 422 for Malformed, 403 for NotSuperadmin, 404 for
      NotFound, 409 for UsernameTaken and 400 for the others. */
  datatype Refusal =
    | NoSession | Malformed | NotSuperadmin | NotFound | UsernameTaken
    | CurrentPasswordMissing | CurrentPasswordWrong
    | LastSuperadmin | SelfDeactivation | SelfDeletion | NothingToChange | AuditReferences

  datatype Outcome<+T> = Accepted(value: T) | Refused(why: Refusal) {
    predicate IsFailure() { Refused? }
    function PropagateFailure<U>(): Outcome<U> requires Refused? { Refused(why) }
    function Extract(): T requires Accepted? { value }
  }

  predicate IsActiveSuper(u: User) { u.isSuper && u.isActive }

  function ActiveSupers(users: map<Id, User>): set<Id> {
    set id | id in users && IsActiveSuper(users[id])
  }

  predicate HasActiveSuper(t: Table) { ActiveSupers(t.users) != {} }

  predicate Taken(users: map<Id, User>, username: string) {
    exists id :: id in users && users[id].username == username
  }

  predicate LengthOk(s: string) { 1 <= |s| <= 255 }

  predicate OptionalLengthOk(s: Option<string>) { s.None? || LengthOk(s.value) }

  predicate WellFormed(op: Operation) {
    match op
    case Create(username, password, _) => LengthOk(username) && LengthOk(password)
    case Update(_, c) => OptionalLengthOk(c.username) && OptionalLengthOk(c.password) && OptionalLengthOk(c.current)
    case Delete(_) => true
  }

  // Why an operation is refused before its target is looked at.
  function Admission(t: Table, actor: Id, op: Operation): Outcome<()> {
    if actor !in t.users || !t.users[actor].isActive then Refused(NoSession)
    else if !WellFormed(op) then Refused(Malformed)
    else if !t.users[actor].isSuper then Refused(NotSuperadmin)
    else Accepted(())
  }

  function Find(t: Table, target: Option<Id>): Outcome<Id> {
    if target.None? || target.value !in t.users then Refused(NotFound) else Accepted(target.value)
  }

  /** Whether another active superadmin remains when `id` gets these flags. */
  predicate GuardPasses(users: map<Id, User>, id: Id, user: User, newSuper: bool, newActive: bool) {
    (newSuper && newActive) || !IsActiveSuper(user) || |ActiveSupers(users) - {id}| > 0
  }

  function Renamed(users: map<Id, User>, user: User, username: Option<string>): Outcome<User> {
    if username.None? || Strip(username.value) == user.username then Accepted(user)
    else if Taken(users, Strip(username.value)) then Refused(UsernameTaken)
    else Accepted(user.(username := Strip(username.value)))
  }

  function Repassworded(user: User, own: bool, c: Changes): Outcome<User> {
    if c.password.None? then Accepted(user)
    else if own && c.current.None? then Refused(CurrentPasswordMissing)
    else if own && Hash(c.current.value) != user.password then Refused(CurrentPasswordWrong)
    else Accepted(user.(password := Hash(c.password.value)))
  }

  function Ranked(users: map<Id, User>, id: Id, user: User, isSuper: Option<bool>): Outcome<User> {
    if isSuper.None? || isSuper.value == user.isSuper then Accepted(user)
    else if user.isSuper && !GuardPasses(users, id, user, false, user.isActive) then Refused(LastSuperadmin)
    else Accepted(user.(isSuper := isSuper.value))
  }

  function Switched(users: map<Id, User>, id: Id, user: User, own: bool, isActive: Option<bool>): Outcome<User> {
    if isActive.None? || isActive.value == user.isActive then Accepted(user)
    else if own && !isActive.value then Refused(SelfDeactivation)
    else if !GuardPasses(users, id, user, user.isSuper, isActive.value) then Refused(LastSuperadmin)
    else Accepted(user.(isActive := isActive.value))
  }

  // The row an update leaves, stage by stage.
  function Updated(users: map<Id, User>, actor: Id, id: Id, c: Changes): Outcome<User>
    requires id in users
  {
    var named :- Renamed(users, users[id], c.username);
    var secured :- Repassworded(named, id == actor, c);
    var ranked :- Ranked(users, id, secured, c.isSuper);
    var switched :- Switched(users, id, ranked, id == actor, c.isActive);
    if switched == users[id] && c.password.None? then Refused(NothingToChange) else Accepted(switched)
  }

  /** The table after a request, and the account it created, changed or deleted. */
  function Handle(t: Table, actor: Id, op: Operation): (result: (Table, Outcome<Id>))
    ensures result.1.Refused? ==> result.0 == t
  {
    var admission := Admission(t, actor, op);
    if admission.Refused? then (t, Refused(admission.why))
    else
      match op
      case Create(username, password, isSuper) =>
        if Taken(t.users, Strip(username)) then (t, Refused(UsernameTaken))
        else
          (Table(t.users[t.issued := User(Strip(username), Hash(password), isSuper, true)], t.audited, t.issued + 1),
           Accepted(t.issued))
      case Update(target, changes) =>
        var found := Find(t, target);
        if found.Refused? then (t, found)
        else
          var row := Updated(t.users, actor, found.value, changes);
          if row.Refused? then (t, Refused(row.why)) else (t.(users := t.users[found.value := row.value]), found)
      case Delete(target) =>
        var found := Find(t, target);
        if found.Refused? then (t, found)
        else if found.value == actor then (t, Refused(SelfDeletion))
        else if !GuardPasses(t.users, found.value, t.users[found.value], false, false) then (t, Refused(LastSuperadmin))
        else if found.value in t.audited then (t, Refused(AuditReferences))
        else (t.(users := t.users - {found.value}), found)
  }

  class AdminTable {
    var users: map<Id, User>
    var audited: set<Id>
    var issued: nat

    constructor (t: Table)
      ensures State() == t
    {
      users, audited, issued := t.users, t.audited, t.issued;
    }

    function State(): Table
      reads this
    {
      Table(users, audited, issued)
    }

    /** The session check and the superadmin check in front of every operation. */
    method Admit(actor: Id, op: Operation) returns (admission: Outcome<()>)
      ensures admission == Admission(State(), actor, op)
    {
      if actor !in users || !users[actor].isActive { return Refused(NoSession); }
      if !WellFormed(op) { return Refused(Malformed); }
      if !users[actor].isSuper { return Refused(NotSuperadmin); }
      return Accepted(());
    }

    method CreateAdminUser(actor: Id, username: string, password: string, isSuper: bool) returns (reply: Outcome<Id>)
      modifies this
      ensures (State(), reply) == Handle(old(State()), actor, Create(username, password, isSuper))
    {
      var admission := Admit(actor, Create(username, password, isSuper));
      if admission.Refused? { return Refused(admission.why); }
      var name := Strip(username);
      if Taken(users, name) { return Refused(UsernameTaken); }
      users := users[issued := User(name, Hash(password), isSuper, true)];
      issued := issued + 1;
      return Accepted(issued - 1);
    }

    /** The checks and assignments of an update, made on a copy of the row: a
        refusal drops the copy, as closing the database session does. */
    method ChangeCopy(actor: Id, id: Id, c: Changes) returns (row: Outcome<User>)
      requires id in users
      ensures row == Updated(users, actor, id, c)
    {
      var user, changed := users[id], false;

      if c.username.Some? {
        var name := Strip(c.username.value);
        if name != user.username {
          if Taken(users, name) { return Refused(UsernameTaken); }
          user, changed := user.(username := name), true;
        }
      }
      ghost var named := user;
      assert Renamed(users, users[id], c.username) == Accepted(named) && (changed <==> named != users[id]);
      if c.password.Some? {
        if id == actor {
          if c.current.None? { return Refused(CurrentPasswordMissing); }
          if Hash(c.current.value) != user.password { return Refused(CurrentPasswordWrong); }
        }
        user, changed := user.(password := Hash(c.password.value)), true;
      }
      ghost var secured := user;
      assert Repassworded(named, id == actor, c) == Accepted(secured);
      if c.isSuper.Some? && c.isSuper.value != user.isSuper {
        if user.isSuper && !GuardPasses(users, id, user, false, user.isActive) { return Refused(LastSuperadmin); }
        user, changed := user.(isSuper := c.isSuper.value), true;
      }
      ghost var ranked := user;
      assert Ranked(users, id, secured, c.isSuper) == Accepted(ranked);
      if c.isActive.Some? && c.isActive.value != user.isActive {
        if id == actor && !c.isActive.value { return Refused(SelfDeactivation); }
        if !GuardPasses(users, id, user, user.isSuper, c.isActive.value) { return Refused(LastSuperadmin); }
        user, changed := user.(isActive := c.isActive.value), true;
      }
      if !changed { return Refused(NothingToChange); }
      return Accepted(user);
    }

    method UpdateAdminUser(actor: Id, target: Option<Id>, c: Changes) returns (reply: Outcome<Id>)
      modifies this
      ensures (State(), reply) == Handle(old(State()), actor, Update(target, c))
    {
      var admission := Admit(actor, Update(target, c));
      if admission.Refused? { return Refused(admission.why); }
      var id :- Find(State(), target);
      var row := ChangeCopy(actor, id, c);
      if row.Refused? { return Refused(row.why); }
      users := users[id := row.value];
      return Accepted(id);
    }

    method DeleteAdminUser(actor: Id, target: Option<Id>) returns (reply: Outcome<Id>)
      modifies this
      ensures (State(), reply) == Handle(old(State()), actor, Delete(target))
    {
      var admission := Admit(actor, Delete(target));
      if admission.Refused? { return Refused(admission.why); }
      var id :- Find(State(), target);
      if id == actor { return Refused(SelfDeletion); }
      if users[id].isSuper && users[id].isActive && |ActiveSupers(users) - {id}| <= 0 {
        return Refused(LastSuperadmin);
      }
      if id in audited { return Refused(AuditReferences); }
      users := users - {id};
      return Accepted(id);
    }
  }

  // ---------------------------------------------------------------- one request

  /** The superadmin who acts still is an active superadmin unless demoted. */
  lemma ActingSuperadmin(t: Table, actor: Id, op: Operation)
    requires Admission(t, actor, op).Accepted?
    ensures actor in ActiveSupers(t.users)
    ensures forall id :: id != actor ==> |ActiveSupers(t.users) - {id}| > 0
  {
  }

  /** What an update asks for, all at once. */
  function Overlay(user: User, c: Changes): User {
    User(if c.username.Some? then Strip(c.username.value) else user.username,
         if c.password.Some? then Hash(c.password.value) else user.password,
         if c.isSuper.Some? then c.isSuper.value else user.isSuper,
         if c.isActive.Some? then c.isActive.value else user.isActive)
  }

  predicate AsksForNothing(user: User, c: Changes) { Overlay(user, c) == user && c.password.None? }

  predicate NameIsFree(t: Table, id: Id, c: Changes)
    requires id in t.users
  {
    c.username.None? || Strip(c.username.value) == t.users[id].username || !Taken(t.users, Strip(c.username.value))
  }

  predicate PasswordIsProved(t: Table, id: Id, c: Changes)
    requires id in t.users
  {
    c.password.None? || (c.current.Some? && Hash(c.current.value) == t.users[id].password)
  }

  predicate SoleSuperadmin(t: Table, id: Id) { ActiveSupers(t.users) == {id} }

  lemma SoleMeansNoOther(t: Table, id: Id)
    requires id in ActiveSupers(t.users)
    ensures SoleSuperadmin(t, id) <==> |ActiveSupers(t.users) - {id}| <= 0
  {
  }

  predicate MayUpdate(t: Table, actor: Id, id: Id, c: Changes)
    requires id in t.users
  {
    && !AsksForNothing(t.users[id], c)
    && NameIsFree(t, id, c)
    && (id == actor ==>
          && PasswordIsProved(t, id, c)
          && c.isActive != Some(false)
          && !(c.isSuper == Some(false) && SoleSuperadmin(t, id)))
  }

  lemma OwnUpdate(t: Table, id: Id, c: Changes)
    requires id in ActiveSupers(t.users)
    ensures Updated(t.users, id, id, c).Accepted? <==> MayUpdate(t, id, id, c)
    ensures MayUpdate(t, id, id, c) ==> Updated(t.users, id, id, c) == Accepted(Overlay(t.users[id], c))
  {
    SoleMeansNoOther(t, id);
    var user := t.users[id];
    if NameIsFree(t, id, c) && PasswordIsProved(t, id, c) {
      var secured := Repassworded(Renamed(t.users, user, c.username).value, true, c).value;
      assert secured == Overlay(user, c.(isSuper := None, isActive := None));
    }
  }

  lemma OtherUpdate(t: Table, actor: Id, id: Id, c: Changes)
    requires id in t.users && id != actor && |ActiveSupers(t.users) - {id}| > 0
    ensures Updated(t.users, actor, id, c).Accepted? <==> MayUpdate(t, actor, id, c)
    ensures MayUpdate(t, actor, id, c) ==> Updated(t.users, actor, id, c) == Accepted(Overlay(t.users[id], c))
  {
    var user := t.users[id];
    if NameIsFree(t, id, c) {
      var secured := Repassworded(Renamed(t.users, user, c.username).value, false, c).value;
      assert secured == Overlay(user, c.(isSuper := None, isActive := None));
    }
  }

  /** An admitted update goes through iff the name is free and, on one's own
      account, the password is proved, no deactivation is asked for and the
      last superadmin is not demoted; then the row holds all that was asked. */
  lemma UpdateAccepted(t: Table, actor: Id, id: Id, c: Changes)
    requires Admission(t, actor, Update(Some(id), c)).Accepted? && id in t.users
    ensures Handle(t, actor, Update(Some(id), c)).1.Accepted? <==> MayUpdate(t, actor, id, c)
    ensures MayUpdate(t, actor, id, c) ==>
              Handle(t, actor, Update(Some(id), c)).0 == t.(users := t.users[id := Overlay(t.users[id], c)])
    ensures MayUpdate(t, actor, id, c) ==>
              var before, after := t.users[id], Handle(t, actor, Update(Some(id), c)).0.users[id];
              && after.username == (if c.username.Some? then Strip(c.username.value) else before.username)
              && after.password == (if c.password.Some? then Hash(c.password.value) else before.password)
              && after.isSuper == (if c.isSuper.Some? then c.isSuper.value else before.isSuper)
              && after.isActive == (if c.isActive.Some? then c.isActive.value else before.isActive)
  {
    ActingSuperadmin(t, actor, Update(Some(id), c));
    if id == actor { OwnUpdate(t, id, c); } else { OtherUpdate(t, actor, id, c); }
  }

  /** Who gets as far as an operation: an existing active superadmin with a
      well-formed request. The other answers are in this order. */
  lemma AdmissionMeaning(t: Table, actor: Id, op: Operation)
    ensures Handle(t, actor, op).1 == Refused(NoSession) <==> actor !in t.users || !t.users[actor].isActive
    ensures Handle(t, actor, op).1 == Refused(Malformed) <==>
            actor in t.users && t.users[actor].isActive && !WellFormed(op)
    ensures Handle(t, actor, op).1 == Refused(NotSuperadmin) <==>
            actor in t.users && t.users[actor].isActive && WellFormed(op) && !t.users[actor].isSuper
    ensures Admission(t, actor, op).Accepted? <==> actor in ActiveSupers(t.users) && WellFormed(op)
  {
  }

  /** Names and passwords have between one and 255 characters. */
  lemma WellFormedMeaning(username: string, password: string, isSuper: bool, target: Option<Id>, current: string)
    ensures WellFormed(Create(username, password, isSuper)) <==>
            0 < |username| < 256 && 0 < |password| < 256
    ensures WellFormed(Update(target, Changes(Some(username), Some(password), Some(current), None, None))) <==>
            0 < |username| < 256 && 0 < |password| < 256 && 0 < |current| < 256
    ensures WellFormed(Update(target, Changes(None, None, None, Some(isSuper), None))) && WellFormed(Delete(target))
  {
  }

  /** An admitted creation goes through iff the name, without blanks around it,
      is free; then there is one account more, active, with that name, password
      and role. */
  lemma CreateAccepted(t: Table, actor: Id, username: string, password: string, isSuper: bool)
    requires Admission(t, actor, Create(username, password, isSuper)).Accepted?
    ensures var (after, reply) := Handle(t, actor, Create(username, password, isSuper));
            && (reply.Accepted? <==> forall id | id in t.users :: t.users[id].username != Strip(username))
            && (reply.Refused? ==> reply == Refused(UsernameTaken))
            && (reply.Accepted? ==>
                  && reply.value == t.issued && after.issued == t.issued + 1 && after.audited == t.audited
                  && after.users == t.users[t.issued := User(Strip(username), Hash(password), isSuper, true)])
  {
  }

  /** A deletion goes through iff it is not one's own account and no audit row
      needs the account: the guard on superadmins never decides. Then the account
      is gone and all else is as before. */
  lemma DeleteAccepted(t: Table, actor: Id, id: Id)
    requires Admission(t, actor, Delete(Some(id))).Accepted? && id in t.users
    ensures Handle(t, actor, Delete(Some(id))).1.Accepted? <==> id != actor && id !in t.audited
    ensures Handle(t, actor, Delete(Some(id))).1.Accepted? ==>
              Handle(t, actor, Delete(Some(id))).0 == t.(users := t.users - {id})
  {
    ActingSuperadmin(t, actor, Delete(Some(id)));
  }

  lemma OwnGuard(t: Table, id: Id, c: Changes)
    requires id in ActiveSupers(t.users)
    ensures Updated(t.users, id, id, c) == Refused(LastSuperadmin) <==>
            && c.isSuper == Some(false) && SoleSuperadmin(t, id) && NameIsFree(t, id, c) && PasswordIsProved(t, id, c)
  {
  }

  lemma OtherGuard(t: Table, actor: Id, id: Id, c: Changes)
    requires id in t.users && id != actor && |ActiveSupers(t.users) - {id}| > 0
    ensures Updated(t.users, actor, id, c) != Refused(LastSuperadmin)
  {
  }

  /** The last-superadmin guard answers exactly when the only active superadmin
      tries to give up that role, with an otherwise acceptable name and password. */
  lemma GuardStopsOnlySelfDemotion(t: Table, actor: Id, op: Operation)
    ensures Handle(t, actor, op).1 == Refused(LastSuperadmin) <==>
            && Admission(t, actor, op).Accepted?
            && op.Update? && op.target == Some(actor)
            && op.changes.isSuper == Some(false)
            && SoleSuperadmin(t, actor)
            && NameIsFree(t, actor, op.changes)
            && PasswordIsProved(t, actor, op.changes)
  {
    if Admission(t, actor, op).Accepted? {
      ActingSuperadmin(t, actor, op);
      SoleMeansNoOther(t, actor);
      if op.Update? && op.target == Some(actor) {
        OwnGuard(t, actor, op.changes);
      } else if op.Update? && Find(t, op.target).Accepted? {
        OtherGuard(t, actor, op.target.value, op.changes);
      }
    }
  }

  /** After any accepted request there is an active superadmin, whatever the
      table held before. */
  lemma AcceptedLeavesSuperadmin(t: Table, actor: Id, op: Operation)
    requires Handle(t, actor, op).1.Accepted?
    requires op.Create? ==> t.issued !in t.users
    ensures HasActiveSuper(Handle(t, actor, op).0)
  {
    ActingSuperadmin(t, actor, op);
    var after := Handle(t, actor, op).0;
    if op.Update? && op.target == Some(actor) && op.changes.isSuper == Some(false) {
      UpdateAccepted(t, actor, actor, op.changes);
      SoleMeansNoOther(t, actor);
      var others := ActiveSupers(t.users) - {actor};
      assert others != {};
      var other :| other in others;
      assert other in ActiveSupers(after.users);
    } else {
      if op.Update? && op.target == Some(actor) { UpdateAccepted(t, actor, actor, op.changes); }
      assert actor in ActiveSupers(after.users);
    }
  }

  /** A request touches one account at most, and changes the password of the
      acting account only for someone who knows the current one. */
  lemma RequestsTouchOneAccount(t: Table, actor: Id, op: Operation, id: Id)
    requires id in t.users && t.issued !in t.users
    ensures var (after, reply) := Handle(t, actor, op);
            && (reply != Accepted(id) ==> id in after.users && after.users[id] == t.users[id])
            && (id !in after.users ==> op == Delete(Some(id)) && id != actor)
            && (id == actor && after.users[id].password != t.users[id].password ==>
                  op.Update? && op.changes.current.Some? && Hash(op.changes.current.value) == t.users[id].password)
  {
  }

  // ---------------------------------------------------------------- runs

  /** What can happen to the table: a request, or audit rows coming and going
      with the keys they belong to. */
  datatype Event = Request(actor: Id, op: Operation) | AuditRows(of: set<Id>)

  function Step(t: Table, e: Event): Table {
    match e
    case Request(actor, op) => Handle(t, actor, op).0
    case AuditRows(of) => t.(audited := of * t.users.Keys)
  }

  function Run(t: Table, events: seq<Event>): Table
    decreases |events|
  {
    if events == [] then t else Run(Step(t, events[0]), events[1..])
  }

  predicate NamesAreUnique(t: Table) {
    forall i, j :: i in t.users && j in t.users && i != j ==> t.users[i].username != t.users[j].username
  }

  predicate Inv(t: Table) {
    && (forall id :: id in t.users ==> id < t.issued)
    && t.audited <= t.users.Keys
    && NamesAreUnique(t)
  }

  lemma StepKeepsInv(t: Table, e: Event)
    requires Inv(t)
    ensures Inv(Step(t, e))
  {
    if e.Request? && Handle(t, e.actor, e.op).1.Accepted? {
      match e.op
      case Create(username, password, isSuper) => NewNameIsUnique(t, t.issued, Step(t, e).users[t.issued]);
      case Update(target, changes) =>
        UpdateAccepted(t, e.actor, target.value, changes);
        NewNameIsUnique(t, target.value, Overlay(t.users[target.value], changes));
      case Delete(_) =>
    }
  }

  lemma NewNameIsUnique(t: Table, id: Id, user: User)
    requires NamesAreUnique(t)
    requires (id in t.users && t.users[id].username == user.username) || !Taken(t.users, user.username)
    ensures NamesAreUnique(t.(users := t.users[id := user]))
  {
  }

  /** Over every sequence of requests by any accounts: an active superadmin
      remains, user names stay distinct and the audit log never refers to a
      deleted account. */
  lemma {:induction false} RunKeepsSuperadmin(t: Table, events: seq<Event>)
    requires Inv(t) && HasActiveSuper(t)
    ensures Inv(Run(t, events)) && HasActiveSuper(Run(t, events))
    decreases |events|
  {
    if events != [] {
      var e := events[0];
      StepKeepsInv(t, e);
      if e.Request? && Handle(t, e.actor, e.op).1.Accepted? { AcceptedLeavesSuperadmin(t, e.actor, e.op); }
      RunKeepsSuperadmin(Step(t, e), events[1..]);
    }
  }

  /** Without an active superadmin the accounts can never change again. */
  lemma {:induction false} LockedOutForGood(t: Table, events: seq<Event>)
    requires !HasActiveSuper(t)
    ensures Run(t, events).users == t.users
    decreases |events|
  {
    if events != [] {
      var e := events[0];
      if e.Request? && Admission(t, e.actor, e.op).Accepted? { ActingSuperadmin(t, e.actor, e.op); }
      LockedOutForGood(Step(t, e), events[1..]);
    }
  }
}
