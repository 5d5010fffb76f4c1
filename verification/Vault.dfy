/** The credential vault: a secure store, a metadata document, one legacy file per session and the
    legacy `auth-state.json`. Any read, write or delete may fail. A secure-store write leaves the
    entry either as it was or as written, whatever it reports; a metadata write that reports failure
    may still have replaced the document. Operations run one at a time. */
module Vault {
  import opened Wrappers

  type User = string

  // A session and the part of it that is not its identity.
  datatype Session = Session(user: User, grant: nat)

  datatype Metadata = Metadata(active: Option<User>, accounts: seq<User>, suppressed: seq<User>, discarded: seq<User>)

  const NO_METADATA := Metadata(None, [], [], [])

  // What a file or a store entry holds: a well-formed session, or anything else.
  datatype Content = Holds(session: Session) | Garbage

  // The sessions of `auth-state.json`, after equal duplicates have been dropped.
  datatype AuthState = Sessions(sessions: seq<Session>, active: Option<User>) | Malformed

  datatype Document = Missing | Unreadable | Written(metadata: Metadata)

  /** Everything the vault owns. `memory` is the in-process suppression list, and `asked` holds the
      users whose removal has been requested since they were last saved successfully. */
  datatype State = State(
    document: Document,
    store: map<User, Content>,
    files: map<string, Content>,
    authState: Option<AuthState>,
    memory: seq<User>,
    asked: set<User>)

  function Meta(v: State): Metadata {
    if v.document.Written? then v.document.metadata else NO_METADATA
  }

  function SanitizeChar(c: char): char {
    if 'a' <= c <= 'z' || 'A' <= c <= 'Z' || '0' <= c <= '9' || c == '-' || c == '_' then c else '_'
  }

  // Two users may share a file name.
  function FileName(u: User): string {
    seq(|u|, i requires 0 <= i < |u| => SanitizeChar(u[i]))
  }

  predicate Blank(u: User) {
    forall i | 0 <= i < |u| :: IsWhitespace(u[i])
  }

  lemma NotBlank(u: User)
    requires !Blank(u)
    ensures exists c :: c in u && !IsWhitespace(c)
  {
    var i :| 0 <= i < |u| && !IsWhitespace(u[i]);
    assert u[i] in u;
  }

  function Decode(c: Content, u: User): Option<Session> {
    if c.Holds? && c.session.user == u && !Blank(u) then Some(c.session) else None
  }

  // Parsing refuses blank identities and two different grants for one user.
  predicate Parses(a: AuthState) {
    && a.Sessions?
    && (forall i | 0 <= i < |a.sessions| :: !Blank(a.sessions[i].user))
    && (forall i, j | 0 <= i < j < |a.sessions| :: a.sessions[i].user != a.sessions[j].user)
  }

  function Without(s: seq<User>, u: User): (r: seq<User>)
    ensures forall x :: x in r <==> x in s && x != u
    ensures Distinct(s) ==> Distinct(r)
  {
    if s == [] then []
    else
      var rest := Without(s[1..], u);
      assert Distinct(s) ==> Distinct(s[1..]) && s[0] !in s[1..];
      if s[0] == u then rest else [s[0]] + rest
  }

  predicate Distinct(s: seq<User>) {
    forall i, j | 0 <= i < j < |s| :: s[i] != s[j]
  }

  function With(s: seq<User>, u: User): (r: seq<User>)
    ensures forall x :: x in r <==> x in s || x == u
    ensures Distinct(s) ==> Distinct(r)
  {
    if u in s then s else s + [u]
  }

  // Distinct accounts, the active one among them, none of them suppressed.
  predicate MetaOk(m: Metadata) {
    && Distinct(m.accounts)
    && (m.active.Some? ==> m.active.value in m.accounts)
    && (forall u | u in m.accounts :: u !in m.suppressed)
  }

  // ---- What a user has, and what every operation guarantees ----

  // The user's credential is in the secure store, readable, and the account is listed.
  predicate Durable(v: State, u: User) {
    u in v.store && Decode(v.store[u], u).Some? && u in Meta(v).accounts
  }

  predicate Recorded(v: State, u: User) {
    u in Meta(v).suppressed || u in Meta(v).discarded
  }

  predicate HasFile(files: map<string, Content>, u: User) {
    FileName(u) in files && Decode(files[FileName(u)], u).Some?
  }

  predicate InFile(v: State, u: User) {
    HasFile(v.files, u)
  }

  predicate InAuthState(v: State, u: User) {
    && v.authState.Some? && v.authState.value.Sessions?
    && exists i | 0 <= i < |v.authState.value.sessions| :: v.authState.value.sessions[i].user == u
  }

  predicate Excused(v: State, v': State, u: User) {
    Durable(v', u) || u in v'.asked || Recorded(v, u)
  }

  /** The guarantee of every operation, and of every sequence of them: metadata stays consistent, a
      recorded removal stays recorded, no legacy grant disappears unless its user is durable or was
      removed, and no durable credential is lost unless its user was removed and not saved since. */
  ghost predicate Guarantee(v: State, v': State) {
    && (MetaOk(Meta(v)) ==> MetaOk(Meta(v')))
    && (forall u | u in v.asked :: u in v'.asked || Durable(v', u))
    && (forall u | u in Meta(v).discarded :: u in Meta(v').discarded)
    && (forall u | Recorded(v', u) :: Recorded(v, u) || u in v'.asked || Durable(v', u))
    && (forall u | Durable(v, u) :: Durable(v', u) || u in v'.asked)
    && (forall u | InFile(v, u) && !InFile(v', u) :: Excused(v, v', u))
    && (forall u | InAuthState(v, u) && !InAuthState(v', u) :: Excused(v, v', u))
  }

  lemma GuaranteeTransitive(a: State, b: State, c: State)
    requires Guarantee(a, b) && Guarantee(b, c)
    ensures Guarantee(a, c)
  {
    hide Durable, Recorded, InFile, InAuthState, MetaOk;
  }

  // No secure entry is replaced or removed, except those of the users in `gone`.
  ghost predicate KeepsStore(v: State, v': State, gone: seq<User>) {
    forall u | u in v.store && u !in gone :: u in v'.store && v'.store[u] == v.store[u]
  }

  // A user whose legacy grants were discarded gets no secure entry that was not there.
  ghost predicate NoneRevived(v: State, v': State) {
    forall u | u in Meta(v).discarded && u in v'.store :: u in v.store && v'.store[u] == v.store[u]
  }

  lemma GuaranteeReflexive(v: State)
    ensures Guarantee(v, v)
  {
  }

  // ---- The effects of the three writing operations ----

  function SavedMeta(m: Metadata, u: User): Metadata {
    Metadata(Some(u), With(m.accounts, u), Without(m.suppressed, u), m.discarded)
  }

  function RemovedMeta(m: Metadata, u: User): Metadata {
    var accounts := Without(m.accounts, u);
    Metadata(if m.active == Some(u) then (if accounts == [] then None else Some(accounts[0])) else m.active,
             accounts, With(m.suppressed, u), With(m.discarded, u))
  }

  lemma {:induction false} WithoutAbsent(s: seq<User>, u: User)
    requires u !in s
    ensures Without(s, u) == s
  {
    if s != [] {
      WithoutAbsent(s[1..], u);
      assert s == [s[0]] + s[1..];
    }
  }

  // One occurrence is cut out, and everything else keeps its place.
  lemma {:induction false} WithoutOne(s: seq<User>, u: User, i: nat)
    requires i < |s| && s[i] == u && u !in s[..i] && u !in s[i + 1..]
    ensures Without(s, u) == s[..i] + s[i + 1..]
  {
    hide Distinct;
    var rest := s[1..];
    if i == 0 {
      WithoutAbsent(rest, u);
    } else {
      assert s[0] in s[..i];
      assert rest[..i - 1] == s[..i][1..] && rest[i..] == s[i + 1..];
      WithoutOne(rest, u, i - 1);
      assert s[..i] + s[i + 1..] == [s[0]] + (rest[..i - 1] + rest[i..]);
    }
  }

  // The first account that is not `u`.
  lemma {:induction false} FirstWithout(s: seq<User>, u: User) returns (i: nat)
    requires Without(s, u) != []
    ensures i < |s| && s[i] == Without(s, u)[0] && s[i] != u && forall j | 0 <= j < i :: s[j] == u
  {
    if s[0] != u {
      i := 0;
    } else {
      var k := FirstWithout(s[1..], u);
      i := k + 1;
    }
  }

  /** A removal from the metadata: the user is the only account to go, the others keep their order; if
      it was the active one, the first of the others becomes active, if there is one. */
  ghost predicate RemovedFrom(m: Metadata, m': Metadata, u: User) {
    && (m.active != Some(u) ==> m'.active == m.active)
    && (m.active == Some(u) && (forall a | a in m.accounts :: a == u) ==> m'.active == None)
    && (forall i | 0 <= i < |m.accounts| && m.accounts[i] != u && (forall j | 0 <= j < i :: m.accounts[j] == u) ::
          m.active == Some(u) ==> m'.active == Some(m.accounts[i]))
    && (forall a :: a in m'.accounts <==> a in m.accounts && a != u)
    && (u !in m.accounts ==> m'.accounts == m.accounts)
    && (forall i | 0 <= i < |m.accounts| && m.accounts[i] == u && u !in m.accounts[..i] && u !in m.accounts[i + 1..] ::
          m'.accounts == m.accounts[..i] + m.accounts[i + 1..])
    && (forall a :: a in m'.suppressed <==> a in m.suppressed || a == u)
    && (forall a :: a in m'.discarded <==> a in m.discarded || a == u)
  }

  lemma FirstOther(s: seq<User>, u: User)
    ensures Without(s, u) == [] ==> forall a | a in s :: a == u
    ensures (forall a | a in s :: a == u) ==> Without(s, u) == []
    ensures forall i | 0 <= i < |s| && s[i] != u && (forall j | 0 <= j < i :: s[j] == u) ::
              Without(s, u) != [] && Without(s, u)[0] == s[i]
  {
    if Without(s, u) == [] {
      forall a | a in s
        ensures a == u
      {
      }
    } else {
      assert Without(s, u)[0] in Without(s, u);
      var k := FirstWithout(s, u);
      hide Without;
      forall i | 0 <= i < |s| && s[i] != u && (forall j | 0 <= j < i :: s[j] == u)
        ensures i == k
      {
      }
    }
  }

  lemma WithoutKeepsOrder(s: seq<User>, u: User)
    ensures u !in s ==> Without(s, u) == s
    ensures forall i | 0 <= i < |s| && s[i] == u && u !in s[..i] && u !in s[i + 1..] :: Without(s, u) == s[..i] + s[i + 1..]
  {
    hide Without, Distinct;
    if u !in s {
      WithoutAbsent(s, u);
    }
    forall i | 0 <= i < |s| && s[i] == u && u !in s[..i] && u !in s[i + 1..]
      ensures Without(s, u) == s[..i] + s[i + 1..]
    {
      WithoutOne(s, u, i);
    }
  }

  lemma RemovedMetaRemoves(m: Metadata, u: User)
    ensures RemovedFrom(m, RemovedMeta(m, u), u)
  {
    hide Without, With, Distinct;
    WithoutKeepsOrder(m.accounts, u);
    FirstOther(m.accounts, u);
  }

  /** A name of letters, digits, hyphens and underscores is its own file name. */
  lemma PlainFileName(u: User)
    requires forall i | 0 <= i < |u| ::
               'a' <= u[i] <= 'z' || 'A' <= u[i] <= 'Z' || '0' <= u[i] <= '9' || u[i] == '-' || u[i] == '_'
    ensures FileName(u) == u
  {
  }

  // The removal of the user is on record, and the account is not listed.
  predicate OnRecord(m: Metadata, u: User) {
    u in m.suppressed && u in m.discarded && u !in m.accounts
  }

  lemma RemovedMetaForgets(m: Metadata, u: User)
    ensures OnRecord(RemovedMeta(m, u), u)
  {
  }

  // How far a save that may stop at any point can have come.
  predicate SaveEffect(v: State, v': State, s: Session) {
    var u := s.user;
    && v'.authState == v.authState
    && (v'.asked == v.asked
        || (v'.asked == v.asked - {u} && !Blank(u)
            && v'.document == Written(SavedMeta(Meta(v), u)) && u in v'.store && v'.store[u] == Holds(s)))
    && (v'.store == v.store || v'.store == v.store[u := Holds(s)])
    && (v'.document == v.document || (v'.document == Written(SavedMeta(Meta(v), u)) && u in v'.store && v'.store[u] == Holds(s)))
    && (v'.files == v.files
        || (InFile(v, u) && v'.files == v.files - {FileName(u)}
            && v'.document == Written(SavedMeta(Meta(v), u)) && u in v'.store && v'.store[u] == Holds(s)))
    && (v'.memory == v.memory || v'.memory == Without(v.memory, u))
  }

  predicate RemoveEffect(v: State, v': State, u: User) {
    && v'.asked == v.asked + {u} && v'.authState == v.authState && v'.memory == v.memory + [u]
    && (v'.document == v.document || v'.document == Written(RemovedMeta(Meta(v), u)))
    && (v'.store == v.store || v'.store == v.store - {u})
    && (v'.files == v.files || (InFile(v, u) && v'.files == v.files - {FileName(u)}))
  }

  lemma SaveKeepsLists(v: State, v': State, s: Session)
    requires SaveEffect(v, v', s)
    ensures MetaOk(Meta(v)) ==> MetaOk(Meta(v'))
    ensures forall u | u in Meta(v).discarded :: u in Meta(v').discarded
    ensures forall u | Recorded(v', u) :: Recorded(v, u)
  {
    hide HasFile, FileName;
  }

  lemma SaveKeepsCredentials(v: State, v': State, s: Session)
    requires SaveEffect(v, v', s)
    ensures forall u | u in v.asked :: u in v'.asked || Durable(v', u)
    ensures forall u | Durable(v, u) :: Durable(v', u)
    ensures forall u | InFile(v, u) && !InFile(v', u) :: Durable(v', u)
    ensures forall u | InAuthState(v, u) :: InAuthState(v', u)
  {
    hide MetaOk, Distinct;
  }

  lemma SaveGuarantees(v: State, v': State, s: Session)
    requires SaveEffect(v, v', s)
    ensures Guarantee(v, v')
  {
    SaveKeepsLists(v, v', s);
    SaveKeepsCredentials(v, v', s);
    hide SaveEffect, Durable, InFile, InAuthState, MetaOk, Recorded;
  }

  lemma RemoveKeepsLists(v: State, v': State, u: User)
    requires RemoveEffect(v, v', u)
    ensures MetaOk(Meta(v)) ==> MetaOk(Meta(v'))
    ensures forall x | x in Meta(v).discarded :: x in Meta(v').discarded
    ensures forall x | Recorded(v', x) :: Recorded(v, x) || x == u
  {
    hide HasFile, FileName;
  }

  lemma RemoveKeepsOthers(v: State, v': State, u: User)
    requires RemoveEffect(v, v', u)
    ensures forall x | Durable(v, x) :: Durable(v', x) || x == u
    ensures forall x | InFile(v, x) && !InFile(v', x) :: x == u
    ensures forall x | InAuthState(v, x) :: InAuthState(v', x)
  {
    hide MetaOk, Distinct;
  }

  lemma RemoveGuarantees(v: State, v': State, u: User)
    requires RemoveEffect(v, v', u)
    ensures Guarantee(v, v')
  {
    RemoveKeepsLists(v, v', u);
    RemoveKeepsOthers(v, v', u);
    assert v'.asked == v.asked + {u};
    hide RemoveEffect, Durable, InFile, InAuthState, MetaOk, Recorded;
  }

  // Neither the store nor a usable legacy source has anything under this user's name.
  ghost predicate NothingFor(v: State, u: User) {
    u !in v.store && (u in Meta(v).discarded || (FileName(u) !in v.files && !InAuthState(v, u)))
  }

  /** Loading: a user suppressed in this process, or on record, yields nothing and nothing changes;
      otherwise the session is that of the secure entry or a legacy grant of a user whose legacy grants were
      never discarded, and every secure entry stays. And a load answers "nothing" only for a suppressed user or one of
      whom there is nothing. */
  ghost predicate LoadContract(v: State, v': State, u: User, r: Result<Option<Session>, string>) {
    && Guarantee(v, v') && KeepsStore(v, v', []) && NoneRevived(v, v')
    && v'.authState == v.authState && v'.asked <= v.asked
    && (forall x | Recorded(v', x) :: Recorded(v, x))
    && (u in v.memory || u in Meta(v).suppressed ==> v' == v)
    && (forall x :: x in v'.memory <==> x in v.memory)
    && LoadAnswer(v, u, r)
  }

  ghost predicate LoadAnswer(v: State, u: User, r: Result<Option<Session>, string>) {
    && (u in v.memory ==> r == Ok(None))
    && (u in Meta(v).suppressed ==> r.Err? || r.value.None?)
    && (r == Ok(None) ==> u in v.memory || u in Meta(v).suppressed || NothingFor(v, u))
    && (r.Ok? && r.value.Some? ==>
          || (u in v.store && Decode(v.store[u], u) == r.value)
          || (u !in Meta(v).discarded && r.value.value.user == u
              && ((InFile(v, u) && v.files[FileName(u)] == Holds(r.value.value))
                  || (InAuthState(v, u) && r.value.value in v.authState.value.sessions))))
  }

  lemma UnchangedLoad(v: State, u: User, r: Result<Option<Session>, string>)
    requires LoadAnswer(v, u, r)
    ensures LoadContract(v, v, u, r)
  {
    hide LoadAnswer;
    GuaranteeReflexive(v);
  }

  // A load that saves what it found.
  lemma SavingLoad(v: State, v': State, s: Session)
    requires LoadAnswer(v, s.user, Ok(Some(s))) && SaveEffect(v, v', s)
    requires s.user in v.store ==> v.store[s.user] == Holds(s)
    requires s.user in v.store || s.user !in Meta(v).discarded
    ensures LoadContract(v, v', s.user, Ok(Some(s)))
  {
    assert s.user !in v.memory && s.user !in Meta(v).suppressed;
    hide LoadAnswer;
    SaveGuarantees(v, v', s);
    hide Guarantee, HasFile, InFile, Decode, FileName;
  }

  predicate Imported(v: State, u: User) {
    Durable(v, u) && u !in v.memory
  }

  /** Migration, wherever it stops: the guarantee holds, only users suppressed on record lose their
      secure entry, and none whose grants were discarded gets one. `auth-state.json` is either kept, or
      deleted once each of its users is durable or was removed on record before. The in-process
      suppression is lifted only of a user in `auth-state.json` whose removal never reached the record. */
  ghost predicate MigrateContract(v: State, v': State) {
    && Migrated(v, v'.(authState := v.authState))
    && (v'.authState == v.authState
        || (v'.authState.None? && forall u | InAuthState(v, u) :: Imported(v', u) || Recorded(v, u)))
    && Guarantee(v, v')
  }

  // What migration has done before it comes to delete `auth-state.json`.
  ghost predicate Migrated(v: State, v': State) {
    && Guarantee(v, v') && KeepsStore(v, v', Meta(v).suppressed) && NoneRevived(v, v')
    && v'.authState == v.authState
    && (forall u | u in v'.asked :: u in v.asked || u in Meta(v).suppressed)
    && (forall u | Recorded(v', u) :: Recorded(v, u))
    && (forall u | u in v.memory && !Lifted(v, u) :: u in v'.memory)
  }

  predicate Lifted(v: State, u: User) {
    InAuthState(v, u) && !Recorded(v, u)
  }

  lemma MigratedReflexive(v: State)
    ensures Migrated(v, v)
  {
  }

  lemma LoadMigrates(v: State, w: State, x: State, u: User, r: Result<Option<Session>, string>)
    requires Migrated(v, w) && LoadContract(w, x, u, r)
    ensures Migrated(v, x)
  {
    GuaranteeTransitive(v, w, x);
    hide Guarantee, MetaOk, Durable, Recorded, InFile, InAuthState, NothingFor, Decode;
  }

  lemma RemoveMigrates(v: State, w: State, x: State, u: User)
    requires Migrated(v, w) && RemoveEffect(w, x, u) && u in Meta(v).suppressed
    ensures Migrated(v, x)
  {
    RemoveGuarantees(w, x, u);
    GuaranteeTransitive(v, w, x);
    hide Guarantee, MetaOk, Durable, InFile, InAuthState, FileName;
  }

  lemma ImportMigrates(v: State, w: State, x: State, s: Session)
    requires Migrated(v, w) && SaveEffect(w, x, s) && Lifted(v, s.user)
    requires s.user in w.store ==> w.store[s.user] == Holds(s)
    ensures Migrated(v, x)
  {
    SaveGuarantees(w, x, s);
    GuaranteeTransitive(v, w, x);
    hide Guarantee, MetaOk, Durable, InFile, InAuthState, FileName;
  }

  lemma MigratedIsContract(v: State, x: State)
    requires Migrated(v, x)
    ensures MigrateContract(v, x) && x.authState == v.authState
  {
    assert x.(authState := v.authState) == x;
  }

  lemma DeleteMigrates(v: State, x: State)
    requires Migrated(v, x)
    requires forall u | InAuthState(v, u) :: Imported(x, u) || Recorded(v, u)
    ensures MigrateContract(v, x.(authState := None))
  {
    assert x.(authState := None).(authState := v.authState) == x;
    hide MetaOk, FileName, Decode;
  }

  // Making a listed account active changes nothing else.
  predicate ActiveEffect(v: State, v': State) {
    || v' == v
    || (v'.document.Written? && v' == v.(document := v'.document)
        && v'.document.metadata.active.Some? && v'.document.metadata.active.value in Meta(v).accounts
        && v'.document.metadata == Meta(v).(active := v'.document.metadata.active))
  }

  lemma ActiveGuarantees(v: State, v': State)
    requires ActiveEffect(v, v')
    ensures Guarantee(v, v')
  {
  }

  lemma ActiveMigrates(v: State, w: State, x: State)
    requires Migrated(v, w) && ActiveEffect(w, x)
    ensures Migrated(v, x)
  {
    ActiveGuarantees(w, x);
    GuaranteeTransitive(v, w, x);
    hide Guarantee, MetaOk, Durable, InFile, InAuthState, FileName;
  }

  // ---- What a migration with nothing failing achieves ----

  // The session file under the user's name, if any, holds a session of this very user.
  predicate OwnFile(v: State, u: User) {
    FileName(u) in v.files ==> HasFile(v.files, u)
  }

  predicate Known(v: State, u: User) {
    u in Meta(v).accounts || Meta(v).active == Some(u) || u in Meta(v).suppressed || InAuthState(v, u)
  }

  // A session file under its own name.
  predicate Proper(name: string, c: Content) {
    c.Holds? && !Blank(c.session.user) && FileName(c.session.user) == name
  }

  /** Nothing is damaged: the sources can be read, every secure entry and every session file holds a
      session of its own user, and no known user's file name is taken by another. */
  ghost predicate Sound(v: State) {
    && !v.document.Unreadable?
    && (v.authState.Some? ==> Parses(v.authState.value))
    && (forall name | name in v.files :: Proper(name, v.files[name]))
    && (forall u | u in v.store :: Decode(v.store[u], u).Some?)
    && (forall u | Known(v, u) :: OwnFile(v, u))
  }

  // The account a migration would make active is listed, or is one it imports.
  predicate ActiveKnown(v: State) {
    var m := Meta(v);
    if m.active.Some? then m.active.value in m.suppressed || m.active.value in m.accounts
    else
      v.authState.Some? && v.authState.value.Sessions? && v.authState.value.active.Some? ==>
        var u := v.authState.value.active.value;
        u in m.suppressed || u in m.accounts || Lifted(v, u)
  }

  // Nothing of a user outside `gone` is lost: a file may only become a durable credential.
  ghost predicate Kept(v: State, v': State, gone: seq<User>) {
    && (forall name | name in v'.files :: name in v.files && v'.files[name] == v.files[name])
    && (forall u | u !in gone && u in Meta(v).accounts :: u in Meta(v').accounts)
    && (forall u | u !in gone && Durable(v, u) :: Durable(v', u))
    && (forall u | u !in gone && InFile(v, u) :: InFile(v', u) || Durable(v', u))
    && (forall u | Gone(v, u) :: Gone(v', u))
  }

  // A removed user whose credentials are no longer there.
  ghost predicate Gone(v: State, u: User) {
    u in Meta(v).suppressed && u !in v.store && FileName(u) !in v.files
  }

  lemma KeptTransitive(a: State, b: State, c: State, gone: seq<User>)
    requires Kept(a, b, gone) && Kept(b, c, gone)
    ensures Kept(a, c, gone)
  {
    hide Durable, InFile, Gone;
  }

  ghost predicate SavedFor(v: State, v': State, u: User) {
    !Blank(u) && exists s: Session :: s.user == u && SaveEffect(v, v', s)
  }

  lemma SaveKeeps(v: State, v': State, s: Session)
    requires SaveEffect(v, v', s) && !Blank(s.user) && s.user !in Meta(v).suppressed
    ensures Kept(v, v', [])
  {
  }

  lemma SaveKeepsSound(v: State, v': State, s: Session)
    requires SaveEffect(v, v', s) && !Blank(s.user) && Sound(v) && OwnFile(v, s.user)
    ensures Sound(v')
  {
    forall u | Known(v', u)
      ensures OwnFile(v', u)
    {
      assert u == s.user || Known(v, u);
      assert OwnFile(v, u);
    }
    hide FileName, Parses, Distinct;
  }

  lemma RemoveKeeps(v: State, v': State, u: User, gone: seq<User>)
    requires RemoveEffect(v, v', u) && u in gone
    ensures Kept(v, v', gone)
  {
  }

  lemma RemovedIsGone(w: State, x: State, u: User, gone: seq<User>)
    requires Kept(w, x, gone) && OnRecord(Meta(x), u) && u !in x.store && FileName(u) !in x.files
    ensures Gone(x, u) && forall y | Gone(w, y) :: Gone(x, y)
  {
    hide Durable, InFile;
  }

  lemma RemoveAddsOne(v: State, v': State, u: User)
    requires RemoveEffect(v, v', u)
    ensures forall x | x in v'.memory :: x in v.memory || x == u
  {
  }

  lemma RemovedOne(v: State, w: State, x: State, u: User, gone: seq<User>)
    requires RemoveEffect(w, x, u) && u in gone && Sound(w) && OwnFile(w, u) && Kept(v, w, gone)
    requires OnRecord(Meta(x), u) && u !in x.store && FileName(u) !in x.files
    ensures Sound(x) && Kept(v, x, gone) && Gone(x, u)
    ensures forall y | Gone(w, y) :: Gone(x, y)
  {
    hide Sound, OwnFile;
    RemoveKeeps(w, x, u, gone);
    RemoveKeepsSound(w, x, u);
    hide RemoveEffect, Kept, OnRecord, Gone;
    KeptTransitive(v, w, x, gone);
    RemovedIsGone(w, x, u, gone);
  }

  lemma RemoveKeepsSound(v: State, v': State, u: User)
    requires RemoveEffect(v, v', u) && Sound(v) && OwnFile(v, u)
    ensures Sound(v')
  {
    forall x | Known(v', x)
      ensures OwnFile(v', x)
    {
      assert x == u || Known(v, x);
      assert OwnFile(v, x);
    }
    hide FileName, Parses, Distinct;
  }

  lemma ActiveKeepsSound(v: State, v': State)
    requires ActiveEffect(v, v')
    ensures Sound(v) ==> Sound(v')
    ensures Kept(v, v', [])
  {
    if Sound(v) {
      forall x | Known(v', x)
        ensures OwnFile(v', x)
      {
        assert Known(v, x);
      }
    }
    hide FileName, Parses, Distinct;
  }

  lemma LoadKeeps(w: State, x: State, u: User)
    requires x == w || (SavedFor(w, x, u) && u !in Meta(w).suppressed)
    ensures Kept(w, x, [])
    ensures Sound(w) && OwnFile(w, u) ==> Sound(x)
  {
    if x != w {
      var s: Session :| s.user == u && SaveEffect(w, x, s);
      SaveKeeps(w, x, s);
      if Sound(w) && OwnFile(w, u) {
        SaveKeepsSound(w, x, s);
      }
    }
    hide Sound, SaveEffect, Durable, InFile, OwnFile;
  }

  lemma OwnFileStays(w: State, x: State, u: User, gone: seq<User>)
    requires Kept(w, x, gone) && OwnFile(w, u)
    ensures OwnFile(x, u)
  {
    hide Durable, InFile, Decode, FileName;
  }

  // A user whose session file migration may load.
  predicate Loadable(v: State, u: User) {
    InFile(v, u) && !Recorded(v, u) && u !in v.memory
  }

  // The first `n` of the users found have been loaded with nothing failing.
  ghost predicate Loaded(v: State, x: State, ids: seq<User>, n: nat)
    requires n <= |ids|
  {
    && Sound(x) && Kept(v, x, [])
    && (forall u :: u in x.memory <==> u in v.memory)
    && (forall u | Recorded(x, u) :: Recorded(v, u))
    && (forall k | 0 <= k < n && Loadable(v, ids[k]) :: Durable(x, ids[k]))
  }

  lemma LoadMakesDurable(w: State, x: State, u: User, r: Result<Option<Session>, string>)
    requires LoadContract(w, x, u, r) && InFile(w, u) && !Recorded(w, u) && u !in w.memory && r.Ok?
    requires r.value.Some? ==>
               u in x.store && x.store[u] == Holds(r.value.value) && (FileName(u) in w.files ==> u in Meta(x).accounts)
    ensures Durable(x, u)
  {
    hide Guarantee, KeepsStore, NoneRevived, FileName, MetaOk;
  }

  lemma LoadedNext(v: State, w: State, x: State, ids: seq<User>, n: nat, r: Result<Option<Session>, string>)
    requires n < |ids| && Loaded(v, w, ids, n) && LoadContract(w, x, ids[n], r) && r.Ok?
    requires x == w || SavedFor(w, x, ids[n])
    requires OwnFile(v, ids[n])
    requires r.value.Some? ==>
               && ids[n] in x.store && x.store[ids[n]] == Holds(r.value.value)
               && (FileName(ids[n]) in w.files ==> ids[n] in Meta(x).accounts)
    ensures Loaded(v, x, ids, n + 1)
  {
    hide LoadContract, SavedFor, Sound, InFile, Durable, Recorded, OwnFile, FileName;
    var u := ids[n];
    OwnFileStays(v, w, u, []);
    SuppressedLoad(w, x, u, r);
    LoadKeeps(w, x, u);
    KeptTransitive(v, w, x, []);
    LoadKeepsLists(w, x, u, r);
    if Loadable(v, u) && InFile(w, u) {
      LoadMakesDurable(w, x, u, r);
    }
  }

  lemma SuppressedLoad(w: State, x: State, u: User, r: Result<Option<Session>, string>)
    requires LoadContract(w, x, u, r)
    ensures u in Meta(w).suppressed ==> x == w
  {
    hide Guarantee, KeepsStore, NoneRevived, LoadAnswer, Recorded;
  }

  lemma LoadKeepsLists(w: State, x: State, u: User, r: Result<Option<Session>, string>)
    requires LoadContract(w, x, u, r)
    ensures forall y :: y in x.memory <==> y in w.memory
    ensures forall y | Recorded(x, y) :: Recorded(w, y)
  {
    hide Guarantee, KeepsStore, NoneRevived, InFile, InAuthState, NothingFor, Decode, Recorded;
  }

  /** The result of a migration with nothing failing: `auth-state.json` is gone if it held sessions,
      each user in it not removed on record is durable and no longer suppressed, each user of a session
      file not removed at all is durable, and the in-process suppression is lifted of exactly the users
      in `auth-state.json` whose removal is not on record; and what a removal has left of a suppressed
      user is gone from the store and the session files. */
  ghost predicate Complete(v: State, v': State) {
    && (forall u | u in Meta(v).suppressed :: u !in v'.store && FileName(u) !in v'.files)
    && (v.authState.Some? && v.authState.value.Sessions? && v.authState.value.sessions != [] ==> v'.authState.None?)
    && (forall u | Lifted(v, u) :: Imported(v', u))
    && (forall u | Loadable(v, u) :: Durable(v', u))
    && (forall u | u in v.memory :: (u in v'.memory <==> !Lifted(v, u)))
  }

  // Every user whose file could be loaded is durable, the suppressed are gone, and nobody else has lost
  // anything.
  ghost predicate Done(v: State, x: State) {
    && (forall u | u in Meta(v).suppressed :: Gone(x, u))
    && Kept(v, x, Meta(v).suppressed)
    && (forall u | Loadable(v, u) :: Durable(x, u))
  }

  lemma LoadsAreDone(v: State, a: State, x: State, ids: seq<User>)
    requires Migrated(v, a) && Kept(v, a, Meta(v).suppressed) && Loaded(a, x, ids, |ids|)
    requires forall u | u in a.memory :: u in v.memory || u in Meta(v).suppressed
    requires forall u | InFile(a, u) && u !in Meta(a).suppressed :: u in ids
    requires forall u | u in Meta(v).suppressed :: Gone(a, u)
    ensures Done(v, x) && Sound(x)
  {
    KeptWider(a, x, Meta(v).suppressed);
    KeptTransitive(v, a, x, Meta(v).suppressed);
    forall u | Loadable(v, u)
      ensures Durable(x, u)
    {
      assert u !in Meta(v).suppressed && !Recorded(a, u);
      if !Durable(a, u) {
        assert Loadable(a, u) && u in ids;
      }
    }
    hide Guarantee, KeepsStore, NoneRevived, Sound, InFile, Durable, Gone;
  }

  lemma KeptWider(v: State, x: State, gone: seq<User>)
    requires Kept(v, x, [])
    ensures Kept(v, x, gone)
  {
    hide InFile, Durable;
  }

  lemma KeepsDone(v: State, w: State, x: State)
    requires Kept(w, x, [])
    ensures Done(v, w) ==> Done(v, x)
  {
    if Done(v, w) {
      KeptWider(w, x, Meta(v).suppressed);
      KeptTransitive(v, w, x, Meta(v).suppressed);
    }
    hide InFile, Durable, Loadable;
  }

  lemma SoundParses(v: State)
    requires Sound(v)
    ensures v.authState.Some? ==> Parses(v.authState.value)
  {
  }

  lemma KnownActiveIsListed(v: State, x: State, u: User)
    requires ActiveKnown(v) && Done(v, x) && u !in Meta(v).suppressed
    requires
      || Meta(v).active == Some(u)
      || (Meta(v).active.None? && v.authState.Some? && v.authState.value.Sessions? && v.authState.value.active == Some(u)
          && (Lifted(v, u) ==> Imported(x, u)))
    ensures u in Meta(x).accounts
  {
    hide InFile, InAuthState, Lifted, Decode;
  }

  lemma DoneIsComplete(v: State, x: State)
    requires Migrated(v, x) && Done(v, x)
    requires v.authState.Some? && v.authState.value.Sessions? ==> v.authState.value.sessions == []
    ensures Complete(v, x)
  {
    hide Guarantee, KeepsStore, NoneRevived, InFile, Durable, Kept, Recorded;
  }

  lemma ImportedAll(v: State, x: State)
    requires v.authState.Some? && v.authState.value.Sessions?
    requires forall i | 0 <= i < |v.authState.value.sessions| ::
               Imported(x, v.authState.value.sessions[i].user) || Recorded(v, v.authState.value.sessions[i].user)
    ensures forall u | Lifted(v, u) :: Imported(x, u)
    ensures forall u | InAuthState(v, u) :: Imported(x, u) || Recorded(v, u)
  {
  }

  lemma DeletionKeepsSound(x: State)
    requires Sound(x)
    ensures Sound(x.(authState := None))
  {
    var y := x.(authState := None);
    forall u | Known(y, u)
      ensures OwnFile(y, u)
    {
      assert Known(x, u) && OwnFile(x, u);
    }
    hide HasFile, Decode, FileName;
  }

  lemma ImportsAreComplete(v: State, x: State)
    requires Migrated(v, x) && Done(v, x) && Sound(x) && forall u | Lifted(v, u) :: Imported(x, u)
    ensures Complete(v, x.(authState := None)) && Sound(x.(authState := None))
  {
    DeletionKeepsSound(x);
    hide Sound, Guarantee, KeepsStore, NoneRevived, Kept, Recorded, InFile, Decode, FileName;
    var y := x.(authState := None);
    assert forall u | Durable(x, u) :: Durable(y, u);
    assert forall u | Loadable(v, u) :: Durable(y, u);
  }

  lemma KeptReflexive(v: State, gone: seq<User>)
    ensures Kept(v, v, gone)
  {
  }

  lemma SuppressedOwnFiles(v: State)
    ensures Sound(v) ==> forall u | u in Meta(v).suppressed :: OwnFile(v, u)
  {
    if Sound(v) {
      forall u | u in Meta(v).suppressed
        ensures OwnFile(v, u)
      {
        assert Known(v, u);
      }
    }
  }

  lemma SoundIsReadable(v: State)
    requires Sound(v)
    ensures !v.document.Unreadable?
  {
  }

  lemma NothingLoaded(v: State, ids: seq<User>)
    ensures Sound(v) ==> Loaded(v, v, ids, 0)
  {
  }

  lemma LoadedOwnFile(v: State, w: State, ids: seq<User>, n: nat)
    requires n < |ids| && Loaded(v, w, ids, n) && OwnFile(v, ids[n])
    ensures Sound(w) && OwnFile(w, ids[n])
  {
    OwnFileStays(v, w, ids[n], []);
  }

  lemma LegacyOwnFile(v: State, w: State, u: User)
    requires Migrated(v, w) && InAuthState(v, u) && Sound(w)
    ensures OwnFile(w, u)
  {
    assert Known(w, u);
  }

  lemma LiftedIsNotSuppressed(v: State, w: State, u: User)
    requires Migrated(v, w) && Lifted(v, u)
    ensures u !in Meta(w).suppressed
  {
    hide Guarantee, KeepsStore, NoneRevived;
  }

  lemma SkippedIsRecorded(m: Metadata, v: State, u: User)
    requires m == Meta(v)
    ensures (u in m.suppressed || u in m.discarded) <==> Recorded(v, u)
    ensures InAuthState(v, u) && !Recorded(v, u) ==> Lifted(v, u)
  {
  }

  class CredentialVault {
    // Whether every store and file operation works from now on.
    var healthy: bool
    var document: Document
    var store: map<User, Content>
    var files: map<string, Content>
    var authState: Option<AuthState>
    var memory: seq<User>
    ghost var asked: set<User>

    ghost function Now(): State
      reads this
    {
      State(document, store, files, authState, memory, asked)
    }

    // A new process over what is on disk.
    constructor (document: Document, store: map<User, Content>, files: map<string, Content>, authState: Option<AuthState>,
                 healthy: bool)
      ensures Now() == State(document, store, files, authState, [], {}) && this.healthy == healthy
    {
      this.healthy := healthy;
      this.document, this.store, this.files, this.authState := document, store, files, authState;
      memory, asked := [], {};
    }

    method ReadMetadata() returns (r: Result<Metadata, string>)
      ensures r.Ok? ==> r.value == Meta(Now()) && !document.Unreadable?
      ensures healthy && !document.Unreadable? ==> r.Ok?
    {
      var failed: bool := *;
      if (failed && !healthy) || document.Unreadable? {
        return Err("Account metadata could not be read; recovery is required");
      }
      return Ok(if document.Written? then document.metadata else NO_METADATA);
    }

    method WriteMetadata(m: Metadata) returns (ok: bool)
      modifies this`document
      ensures ok ==> document == Written(m)
      ensures document == old(document) || document == Written(m)
      ensures healthy ==> ok
    {
      var replaced: bool := *;
      ok := *;
      ok := ok || healthy;
      if replaced || ok {
        document := Written(m);
      }
    }

    method StoreGet(u: User) returns (r: Result<Option<Content>, string>)
      ensures r.Ok? ==> r.value == if u in store then Some(store[u]) else None
      ensures healthy ==> r.Ok?
    {
      var available: bool := *;
      if !available && !healthy {
        return Err("OS credential store is unavailable or locked");
      }
      return Ok(if u in store then Some(store[u]) else None);
    }

    method StoreSet(u: User, c: Content) returns (ok: bool)
      modifies this`store
      ensures store == old(store) || store == old(store)[u := c]
      ensures healthy ==> ok && store == old(store)[u := c]
    {
      var written: bool := *;
      ok := *;
      ok := ok || healthy;
      if written || healthy {
        store := store[u := c];
      }
    }

    method StoreDelete(u: User) returns (ok: bool)
      modifies this`store
      ensures ok ==> store == old(store) - {u}
      ensures store == old(store) || store == old(store) - {u}
      ensures healthy ==> ok
    {
      var deleted: bool := *;
      ok := *;
      ok := ok || healthy;
      if deleted || ok {
        store := store - {u};
      }
    }

    method LoadSessionFile(u: User) returns (r: Result<Option<Session>, string>)
      ensures r.Ok? && r.value.Some? ==> FileName(u) in files && Decode(files[FileName(u)], u) == r.value
      ensures r.Ok? && r.value.None? ==> FileName(u) !in files
      ensures healthy && OwnFile(Now(), u) ==> r.Ok?
    {
      var readable: bool := *;
      if !readable && !healthy {
        return Err("Could not read the local session store");
      }
      if FileName(u) !in files {
        return Ok(None);
      }
      var session := Decode(files[FileName(u)], u);
      return if session.Some? then Ok(session) else Err("Saved session is invalid");
    }

    // Removes a session file only if it holds a session of this very user.
    method RemoveSessionFile(u: User) returns (ok: bool)
      modifies this`files
      ensures files == old(files) || (HasFile(old(files), u) && files == old(files) - {FileName(u)})
      ensures files != old(files) ==>
                FileName(u) in old(files) && old(files)[FileName(u)].Holds? && old(files)[FileName(u)].session.user == u
      ensures ok ==> FileName(u) !in files
      ensures healthy && (FileName(u) in old(files) ==> HasFile(old(files), u)) ==> ok
    {
      var loaded := LoadSessionFile(u);
      if loaded.Err? {
        return false;
      }
      if loaded.value.None? {
        return true;
      }
      ok := *;
      ok := ok || healthy;
      if ok {
        files := files - {FileName(u)};
      }
    }

    /** Saving: on success the session is in the secure store as read back, its account is listed where it
        was or last, active and not suppressed, nothing else in the metadata has changed, and the
        in-process suppression is lifted of this user alone. No session file but the user's own goes. */
    method Save(session: Session) returns (r: Result<(), string>)
      modifies this
      ensures healthy == old(healthy)
      ensures SaveEffect(old(Now()), Now(), session) && Guarantee(old(Now()), Now())
      ensures r.Ok? ==>
                && store == old(store)[session.user := Holds(session)]
                && document == Written(SavedMeta(Meta(old(Now())), session.user))
                && session.user !in memory && (Blank(session.user) || session.user !in asked)
      ensures r.Ok? ==>
                var m := if old(document).Written? then old(document).metadata else Metadata(None, [], [], []);
                && document.metadata.active == Some(session.user)
                && document.metadata.accounts ==
                     (if session.user in m.accounts then m.accounts else m.accounts + [session.user])
                && (forall u :: u in document.metadata.suppressed <==> u in m.suppressed && u != session.user)
                && document.metadata.discarded == m.discarded
                && (forall u :: u in memory <==> u in old(memory) && u != session.user)
      ensures files != old(files) ==>
                && r.Ok? && FileName(session.user) in old(files) && files == old(files) - {FileName(session.user)}
                && old(files)[FileName(session.user)].Holds? && old(files)[FileName(session.user)].session.user == session.user
      ensures r.Err? ==> memory == old(memory) && files == old(files)
      ensures healthy && !old(document).Unreadable? ==> r.Ok?
      ensures healthy && r.Ok? && old(OwnFile(Now(), session.user)) ==> FileName(session.user) !in files
    {
      hide Guarantee, FileName, HasFile, Distinct, MetaOk, Durable, Recorded, InAuthState, Without;
      ghost var v := Now();
      var metadata := ReadMetadata();
      if metadata.Err? {
        SaveGuarantees(v, Now(), session);
        return Err(metadata.error);
      }
      var stored := StoreSet(session.user, Holds(session));
      var readBack := StoreGet(session.user);
      if !stored || readBack.Err? || readBack.value != Some(Holds(session)) {
        SaveGuarantees(v, Now(), session);
        return Err("OS credential store verification failed");
      }
      var m := metadata.value;
      m := m.(suppressed := Without(m.suppressed, session.user));
      m := m.(active := Some(session.user));
      m := m.(accounts := With(m.accounts, session.user));
      var ok := WriteMetadata(m);
      if !ok {
        SaveGuarantees(v, Now(), session);
        return Err("Could not save account metadata");
      }
      memory := Without(memory, session.user);
      if !Blank(session.user) {
        asked := asked - {session.user};
      }
      var removed := RemoveSessionFile(session.user);
      SaveGuarantees(v, Now(), session);
      return Ok(());
    }

    /** Removing: from the moment it starts the user is suppressed in this process, whatever fails;
        on success the removal is recorded and neither the store nor a session file holds the user.
        Whenever the metadata is rewritten, it is as `RemovedFrom` says. */
    method Remove(u: User) returns (r: Result<(), string>)
      modifies this
      ensures healthy == old(healthy)
      ensures RemoveEffect(old(Now()), Now(), u) && Guarantee(old(Now()), Now())
      ensures r.Ok? ==>
                && OnRecord(Meta(Now()), u) && u !in store && FileName(u) !in files
      ensures document != old(document) || r.Ok? ==>
                var m := if old(document).Written? then old(document).metadata else Metadata(None, [], [], []);
                document.Written? && RemovedFrom(m, document.metadata, u)
      ensures healthy && !old(document).Unreadable? && old(OwnFile(Now(), u)) ==> r.Ok?
    {
      hide Guarantee, FileName, HasFile, Distinct, RemovedMeta, MetaOk, Durable, Recorded, InAuthState, OnRecord, Decode, Without, With, RemovedFrom;
      ghost var v := Now();
      memory := memory + [u];
      asked := asked + {u};
      var suppression := RecordRemoval(u);
      var secret := StoreDelete(u);
      var legacy := RemoveSessionFile(u);
      assert RemoveEffect(v, Now(), u);
      RemovedMetaRemoves(Meta(v), u);
      hide RemoveEffect, RemovedMeta;
      RemoveGuarantees(v, Now(), u);
      return if suppression && secret && legacy then Ok(()) else Err("Removed account credential cleanup is pending");
    }

    // The metadata half of a removal: suppressed, discarded, not listed, another account active.
    method RecordRemoval(u: User) returns (ok: bool)
      modifies this`document
      ensures document == old(document) || document == Written(RemovedMeta(Meta(old(Now())), u))
      ensures ok ==> document == Written(RemovedMeta(Meta(old(Now())), u)) && OnRecord(Meta(Now()), u)
      ensures healthy && !old(document).Unreadable? ==> ok
    {
      var metadata := ReadMetadata();
      if metadata.Err? {
        return false;
      }
      var m := metadata.value;
      m := m.(suppressed := With(m.suppressed, u), discarded := With(m.discarded, u), accounts := Without(m.accounts, u));
      if m.active == Some(u) {
        m := m.(active := if m.accounts == [] then None else Some(m.accounts[0]));
      }
      ok := WriteMetadata(m);
      RemovedMetaForgets(Meta(old(Now())), u);
    }

    method SetActive(u: User) returns (r: Result<(), string>)
      modifies this`document
      ensures ActiveEffect(old(Now()), Now()) && Guarantee(old(Now()), Now())
      ensures r.Ok? || document != old(document) ==>
                var m := if old(document).Written? then old(document).metadata else Metadata(None, [], [], []);
                u in m.accounts && document == Written(Metadata(Some(u), m.accounts, m.suppressed, m.discarded))
      ensures healthy && !old(document).Unreadable? ==> (r.Ok? <==> u in Meta(old(Now())).accounts)
    {
      ghost var v := Now();
      ActiveGuarantees(v, v);
      var metadata := ReadMetadata();
      if metadata.Err? {
        return Err(metadata.error);
      }
      if u !in metadata.value.accounts {
        return Err("Saved account not found");
      }
      var ok := WriteMetadata(metadata.value.(active := Some(u)));
      ActiveGuarantees(v, Now());
      return if ok then Ok(()) else Err("not written");
    }

    // A legacy grant, unless the user's legacy grants have been discarded.
    method LoadLegacySession(u: User) returns (r: Result<Option<Session>, string>)
      ensures r.Ok? && r.value.Some? ==>
                && u !in Meta(Now()).discarded && r.value.value.user == u && !Blank(u)
                && ((InFile(Now(), u) && files[FileName(u)] == Holds(r.value.value))
                    || (InAuthState(Now(), u) && r.value.value in authState.value.sessions))
      ensures r == Ok(None) ==>
                u in Meta(Now()).discarded || (FileName(u) !in files && !InAuthState(Now(), u))
      // Nothing is taken from a legacy state with two sessions of one user or one of a blank user.
      ensures r.Ok? && r.value.Some? && FileName(u) !in files ==>
                && authState.Some? && authState.value.Sessions?
                && var sessions := authState.value.sessions;
                && (forall i | 0 <= i < |sessions| :: exists c :: c in sessions[i].user && !IsWhitespace(c))
                && (forall i, j | 0 <= i < j < |sessions| :: sessions[i].user != sessions[j].user)
      ensures healthy && !document.Unreadable? && OwnFile(Now(), u) && (authState.Some? ==> Parses(authState.value)) ==> r.Ok?
    {
      var metadata := ReadMetadata();
      if metadata.Err? {
        return Err(metadata.error);
      }
      if u in metadata.value.discarded {
        return Ok(None);
      }
      var file := LoadSessionFile(u);
      if file.Err? || file.value.Some? {
        return file;
      }
      var readable: bool := *;
      if !readable && !healthy {
        return Err("Legacy account state could not be read");
      }
      if authState.None? {
        return Ok(None);
      }
      if !Parses(authState.value) {
        return Err("Legacy account state is invalid");
      }
      var sessions := authState.value.sessions;
      forall i | 0 <= i < |sessions|
        ensures exists c :: c in sessions[i].user && !IsWhitespace(c)
      {
        NotBlank(sessions[i].user);
      }
      for i := 0 to |sessions|
        invariant forall k | 0 <= k < i :: sessions[k].user != u
      {
        if sessions[i].user == u {
          return Ok(Some(sessions[i]));
        }
      }
      return Ok(None);
    }

    /** Loading: see `LoadContract`. A secure entry that can be read wins over a legacy grant; only a store
        that cannot be read falls back to one. With nothing failing and nothing damaged it answers. */
    method Load(u: User) returns (r: Result<Option<Session>, string>)
      modifies this
      ensures healthy == old(healthy)
      ensures LoadContract(old(Now()), Now(), u, r)
      ensures Now() == old(Now()) || SavedFor(old(Now()), Now(), u)
      ensures healthy && old(Sound(Now())) && old(OwnFile(Now(), u)) ==> r.Ok?
      ensures healthy && old(Sound(Now())) && r.Ok? && r.value.Some? ==>
        && u in store && store[u] == Holds(r.value.value)
        && (FileName(u) in old(files) || u !in old(store) ==> u in Meta(Now()).accounts)
      ensures healthy && u in old(store) && r.Ok? && r.value.Some? ==> old(store)[u] == Holds(r.value.value)
      ensures r.Ok? && r.value.Some? ==> r.value.value.user == u && !Blank(u)
    {
      hide LoadContract, Guarantee, MetaOk, Distinct, FileName, SaveEffect;
      ghost var v := Now();
      if u in memory {
        UnchangedLoad(v, u, Ok(None));
        return Ok(None);
      }
      var metadata := ReadMetadata();
      if metadata.Err? {
        UnchangedLoad(v, u, Err(metadata.error));
        return Err(metadata.error);
      }
      if u in metadata.value.suppressed {
        UnchangedLoad(v, u, Ok(None));
        return Ok(None);
      }
      var entry := StoreGet(u);
      if entry.Ok? && entry.value.Some? {
        var session := Decode(entry.value.value, u);
        if session.None? {
          UnchangedLoad(v, u, Err("Saved credential is invalid"));
          return Err("Saved credential is invalid");
        }
        UnchangedLoad(v, u, Ok(session));
        if FileName(u) in files {
          var saved := Save(session.value);
          SavingLoad(v, Now(), session.value);
        }
        return Ok(session);
      }
      var legacy := LoadLegacySession(u);
      if entry.Err? {
        r := if legacy.Err? || legacy.value.Some? then legacy else Err(entry.error);
        UnchangedLoad(v, u, r);
        return;
      }
      UnchangedLoad(v, u, legacy);
      if legacy.Ok? && legacy.value.Some? {
        var saved := Save(legacy.value.value);
        SavingLoad(v, Now(), legacy.value.value);
      }
      return legacy;
    }

    // Users with something stored or left to migrate, except the suppressed; the second result says
    // whether some source could not be read. Nobody with a readable source is missed.
    method DiscoveredUserIds() returns (r: Result<(seq<User>, bool), string>)
      ensures r.Ok? ==> Distinct(r.value.0) && forall u | u in r.value.0 :: u !in Meta(Now()).suppressed
      ensures r.Ok? ==> forall u | u in Meta(Now()).accounts && u != "" && u !in Meta(Now()).suppressed :: u in r.value.0
      ensures r.Ok? && !r.value.1 ==>
                forall u | (InFile(Now(), u) || InAuthState(Now(), u)) && u !in Meta(Now()).suppressed :: u in r.value.0
      ensures healthy && Sound(Now()) ==> r.Ok? && !r.value.1 && forall u | u in r.value.0 :: OwnFile(Now(), u)
    {
      var metadata := ReadMetadata();
      if metadata.Err? {
        return Err(metadata.error);
      }
      var m := metadata.value;
      var ids := if m.active.Some? && m.active.value != "" then [m.active.value] else [];
      for i := 0 to |m.accounts|
        invariant Distinct(ids)
        invariant forall u | u in ids :: Known(Now(), u)
        invariant forall k | 0 <= k < i :: m.accounts[k] == "" || m.accounts[k] in ids
      {
        if m.accounts[i] != "" {
          ids := With(ids, m.accounts[i]);
        }
      }
      var warned: bool := *;
      warned := warned && !healthy;
      if !warned && authState.Some? && Parses(authState.value) {
        ids := AddUsers(ids, authState.value.sessions);
      } else if authState.Some? {
        warned := true;
      }
      var fromFiles, unreadable := AddFileUsers(ids);
      assert !warned ==> forall u | InAuthState(Now(), u) :: u in fromFiles;
      ids := fromFiles;
      warned := warned || unreadable;
      var kept := Unsuppressed(ids, m.suppressed);
      return Ok((kept, warned));
    }

    method Unsuppressed(ids: seq<User>, suppressed: seq<User>) returns (kept: seq<User>)
      ensures Distinct(kept)
      ensures forall u :: u in kept <==> u in ids && u !in suppressed
    {
      kept := [];
      for i := 0 to |ids|
        invariant Distinct(kept)
        invariant forall u :: u in kept <==> u in ids[..i] && u !in suppressed
      {
        assert ids[..i + 1] == ids[..i] + [ids[i]];
        if ids[i] !in suppressed {
          kept := With(kept, ids[i]);
        }
      }
      assert ids[..|ids|] == ids;
    }

    method AddUsers(start: seq<User>, sessions: seq<Session>) returns (ids: seq<User>)
      requires Distinct(start)
      ensures Distinct(ids)
      ensures forall u :: u in ids <==> u in start || exists i :: 0 <= i < |sessions| && sessions[i].user == u
    {
      ids := start;
      for i := 0 to |sessions|
        invariant Distinct(ids)
        invariant forall u :: u in ids <==> u in start || exists k :: 0 <= k < i && sessions[k].user == u
      {
        ids := With(ids, sessions[i].user);
      }
    }

    // The users of the session files that hold a session under its own name.
    method AddFileUsers(start: seq<User>) returns (ids: seq<User>, warned: bool)
      requires Distinct(start)
      ensures Distinct(ids)
      ensures forall u | u in start :: u in ids
      ensures !warned ==> forall u | InFile(Now(), u) :: u in ids
      ensures forall u | u in ids :: u in start || (FileName(u) in files && files[FileName(u)].Holds? && files[FileName(u)].session.user == u)
      ensures healthy && Sound(Now()) ==> !warned
    {
      ids, warned := start, false;
      var listed: bool := *;
      if !listed && !healthy {
        return start, true;
      }
      var names := files.Keys;
      while names != {}
        invariant Distinct(ids)
        invariant forall u | u in start :: u in ids
        invariant names <= files.Keys
        invariant !warned ==> forall u | InFile(Now(), u) && FileName(u) !in names :: u in ids
        invariant forall u | u in ids :: u in start || (FileName(u) in files && files[FileName(u)].Holds? && files[FileName(u)].session.user == u)
        invariant healthy && Sound(Now()) ==> !warned
        decreases names
      {
        var name :| name in names;
        var readable: bool := *;
        assert healthy && Sound(Now()) ==> Proper(name, files[name]);
        if (readable || healthy) && files[name].Holds? && files[name].session.user != "" && FileName(files[name].session.user) == name {
          ids := With(ids, files[name].session.user);
        } else {
          warned := true;
        }
        names := names - {name};
      }
    }

    method RemoveSuppressed(suppressed: seq<User>) returns (failed: bool)
      requires suppressed == Meta(Now()).suppressed
      modifies this
      ensures healthy == old(healthy)
      ensures Migrated(old(Now()), Now())
      ensures healthy && old(Sound(Now())) ==> !failed && Sound(Now()) && Kept(old(Now()), Now(), suppressed)
      ensures healthy && old(Sound(Now())) ==> forall u | u in suppressed :: Gone(Now(), u)
      ensures forall u | u in memory :: u in old(memory) || u in suppressed
    {
      hide Migrated, Sound, Kept, OwnFile, Gone, RemovedFrom, RemoveEffect, Guarantee, OnRecord, FileName;
      ghost var v := Now();
      MigratedReflexive(v);
      KeptReflexive(v, suppressed);
      SuppressedOwnFiles(v);
      failed := false;
      for i := 0 to |suppressed|
        invariant healthy == old(healthy)
        invariant Migrated(v, Now())
        invariant healthy && Sound(v) ==> !failed && Sound(Now()) && Kept(v, Now(), suppressed)
        invariant healthy && Sound(v) ==> forall k | 0 <= k < i :: Gone(Now(), suppressed[k])
        invariant forall u | u in memory :: u in v.memory || u in suppressed
      {
        ghost var w, u := Now(), suppressed[i];
        if healthy && Sound(v) {
          OwnFileStays(v, w, u, suppressed);
          SoundIsReadable(w);
        }
        var removed := Remove(suppressed[i]);
        RemoveAddsOne(w, Now(), u);
        RemoveMigrates(v, w, Now(), u);
        if healthy && Sound(v) {
          RemovedOne(v, w, Now(), u, suppressed);
        }
        failed := failed || removed.Err?;
      }
    }

    method LoadDiscovered(ids: seq<User>, ghost v: State) returns (failed: bool, imported: nat)
      requires Migrated(v, Now())
      modifies this
      ensures healthy == old(healthy)
      ensures Migrated(v, Now())
      ensures healthy && old(Sound(Now())) && (forall u | u in ids :: OwnFile(old(Now()), u)) ==>
                !failed && Loaded(old(Now()), Now(), ids, |ids|)
    {
      hide Migrated, LoadContract, Sound, Kept, OwnFile, Loaded, SavedFor;
      ghost var start := Now();
      ghost var good := healthy && Sound(start) && forall u | u in ids :: OwnFile(start, u);
      NothingLoaded(start, ids);
      failed, imported := false, 0;
      for i := 0 to |ids|
        invariant healthy == old(healthy)
        invariant Migrated(v, Now())
        invariant good ==> !failed && Loaded(start, Now(), ids, i)
      {
        ghost var w := Now();
        if good {
          LoadedOwnFile(start, w, ids, i);
        }
        var session := Load(ids[i]);
        LoadMigrates(v, w, Now(), ids[i], session);
        if good {
          LoadedNext(start, w, Now(), ids, i, session);
        }
        if session.Ok? && session.value.Some? {
          var durable := StoreGet(ids[i]);
          if durable == Ok(Some(Holds(session.value.value))) {
            imported := imported + 1;
          } else {
            failed := true;
          }
        } else if session.Err? {
          failed := true;
        }
      }
    }

    // One session of `auth-state.json`: an existing secure entry is kept, otherwise it is saved.
    method ImportSession(session: Session, ghost v: State) returns (ok: bool)
      requires Migrated(v, Now()) && Lifted(v, session.user) && !Blank(session.user)
      modifies this
      ensures healthy == old(healthy)
      ensures Migrated(v, Now())
      ensures ok ==> Imported(Now(), session.user)
      ensures forall u | Imported(old(Now()), u) :: Imported(Now(), u)
      ensures healthy && old(Sound(Now())) && old(OwnFile(Now(), session.user)) ==>
                ok && Sound(Now()) && Kept(old(Now()), Now(), [])
    {
      hide Migrated, Guarantee, Lifted, Kept, OwnFile;
      ghost var w := Now();
      var stored := StoreGet(session.user);
      if stored.Err? {
        return false;
      }
      var selected := session;
      if stored.value.Some? {
        var decoded := Decode(stored.value.value, session.user);
        if decoded.None? {
          return false;
        }
        selected := decoded.value;
      }
      LiftedIsNotSuppressed(v, w, session.user);
      var saved := Save(selected);
      ImportMigrates(v, w, Now(), selected);
      SaveKeeps(w, Now(), selected);
      if Sound(w) && OwnFile(w, session.user) {
        SaveKeepsSound(w, Now(), selected);
      }
      return saved.Ok?;
    }

    predicate Skipped(m: Metadata, u: User) {
      u in m.suppressed || u in m.discarded
    }

    method ImportSessions(sessions: seq<Session>, m: Metadata, ghost v: State) returns (failed: bool, imported: nat)
      requires Migrated(v, Now()) && m == Meta(v)
      requires forall i | 0 <= i < |sessions| :: !Blank(sessions[i].user) && InAuthState(v, sessions[i].user)
      modifies this
      ensures healthy == old(healthy)
      ensures Migrated(v, Now())
      ensures healthy && old(Sound(Now())) ==> !failed && Sound(Now())
      ensures healthy && old(Sound(Now())) && old(Done(v, Now())) ==> Done(v, Now())
      ensures !failed ==> forall i | 0 <= i < |sessions| :: Imported(Now(), sessions[i].user) || Recorded(v, sessions[i].user)
    {
      hide Migrated, InAuthState, Durable, Recorded, Sound, Kept, Done;
      ghost var start := Now();
      KeptReflexive(start, []);
      failed, imported := false, 0;
      for i := 0 to |sessions|
        invariant healthy == old(healthy)
        invariant Migrated(v, Now())
        invariant healthy && Sound(start) ==> !failed && Sound(Now()) && Kept(start, Now(), [])
        invariant !failed ==> forall k | 0 <= k < i :: Imported(Now(), sessions[k].user) || Recorded(v, sessions[k].user)
      {
        if !Skipped(m, sessions[i].user) {
          ghost var w := Now();
          SkippedIsRecorded(m, v, sessions[i].user);
          if healthy && Sound(start) {
            LegacyOwnFile(v, w, sessions[i].user);
          }
          var ok := ImportSession(sessions[i], v);
          if ok {
            imported := imported + 1;
          } else {
            failed := true;
          }
          if healthy && Sound(start) {
            KeptTransitive(start, w, Now(), []);
          }
        } else {
          SkippedIsRecorded(m, v, sessions[i].user);
        }
      }
      if healthy && Sound(start) {
        KeepsDone(v, start, Now());
      }
    }

    // The part of a migration that imports `auth-state.json`.
    method ImportAuthState(m: Metadata, failed: bool, imported: nat, ghost v: State) returns (r: Result<nat, string>)
      requires Migrated(v, Now()) && m == Meta(v)
      modifies this
      ensures healthy == old(healthy)
      ensures MigrateContract(v, Now())
      ensures authState != v.authState ==> r.Ok? && v.authState.Some? && Parses(v.authState.value)
      ensures r.Ok? && v.authState.Some? ==>
        v.authState.value.Sessions? && (v.authState.value.sessions != [] ==> authState == None)
      ensures healthy && !failed && ActiveKnown(v) && old(Sound(Now())) && old(Done(v, Now())) ==>
                r.Ok? && Complete(v, Now()) && Sound(Now())
      ensures r.Ok? && (v.authState.None? || !v.authState.value.Sessions? || v.authState.value.sessions == []) ==>
                document == old(document)
      ensures r.Ok? && v.authState.Some? && v.authState.value.Sessions? && v.authState.value.sessions != [] ==>
                var active := if m.active.Some? then m.active else v.authState.value.active;
                active.Some? && active.value !in m.suppressed ==> document.Written? && document.metadata.active == active
    {
      hide Migrated, MigrateContract, Lifted, Durable, Sound, Kept, Complete, ActiveKnown, Done, InFile, OwnFile;
      ghost var good := healthy && !failed && ActiveKnown(v) && Sound(Now()) && Done(v, Now());
      MigratedIsContract(v, Now());
      var readable: bool := *;
      if !readable && !healthy {
        return Err("Could not read the Electron account state");
      }
      if authState.None? {
        if good {
          DoneIsComplete(v, Now());
        }
        return if failed then Err("pending") else Ok(imported);
      }
      if good {
        SoundParses(Now());
      }
      if !Parses(authState.value) {
        return Err("Legacy account state is invalid");
      }
      var legacy := authState.value;
      if legacy.sessions == [] {
        if good {
          DoneIsComplete(v, Now());
        }
        return Ok(0);
      }
      var importFailed, more := ImportSessions(legacy.sessions, m, v);
      MigratedIsContract(v, Now());
      if failed || importFailed {
        return Err("Legacy credential migration is pending; recoverable source data was retained");
      }
      ImportedAll(v, Now());
      var active := if m.active.Some? then m.active else legacy.active;
      if active.Some? && active.value !in m.suppressed {
        if good {
          KnownActiveIsListed(v, Now(), active.value);
        }
        var activated := Activate(active.value, v);
        MigratedIsContract(v, Now());
        if activated.Err? {
          return Err(activated.error);
        }
      }
      var deleted: bool := *;
      if !deleted && !healthy {
        return Err("Legacy credential cleanup is pending");
      }
      if good {
        ImportsAreComplete(v, Now());
      }
      DeleteAuthState(v);
      return Ok(imported + more);
    }

    /** Migration: see `MigrateContract`, whatever fails; and with nothing failing and nothing damaged it
        succeeds with the result of `Complete`. `auth-state.json` is deleted exactly by a migration that
        reports success over sessions to import, and only if no two of them are of one user. Success leaves
        the account active that was, or the legacy one if there was none. */
    method Migrate() returns (r: Result<nat, string>)
      modifies this
      ensures healthy == old(healthy)
      ensures MigrateContract(old(Now()), Now())
      ensures authState != old(authState) ==>
                && r.Ok? && old(authState).Some? && old(authState).value.Sessions?
                && var sessions := old(authState).value.sessions;
                forall i, j | 0 <= i < j < |sessions| :: sessions[i].user != sessions[j].user
      ensures r.Ok? && old(authState).Some? ==>
        old(authState).value.Sessions? && (old(authState).value.sessions != [] ==> authState == None)
      ensures healthy && old(Sound(Now())) && old(ActiveKnown(Now())) ==>
                r.Ok? && Complete(old(Now()), Now()) && Sound(Now())
      ensures r.Ok? ==>
                var m := if old(document).Written? then old(document).metadata else Metadata(None, [], [], []);
                && (m.active.Some? && m.active.value !in m.suppressed ==>
                      document.Written? && document.metadata.active == m.active)
                && (m.active.None? && old(authState).Some? && old(authState).value.sessions != []
                    && old(authState).value.active.Some? && old(authState).value.active.value !in m.suppressed ==>
                      document.Written? && document.metadata.active == old(authState).value.active)
    {
      hide Migrated, MigrateContract, Lifted, Durable, Sound, Kept, Loaded, Complete, ActiveKnown, Done, InFile, OwnFile;
      ghost var v := Now();
      ghost var good := healthy && Sound(v) && ActiveKnown(v);
      MigratedReflexive(v);
      MigratedIsContract(v, v);
      if good {
        SoundIsReadable(v);
      }
      var metadata := ReadMetadata();
      if metadata.Err? {
        return Err(metadata.error);
      }
      var m := metadata.value;
      var failedRemovals := RemoveSuppressed(m.suppressed);
      MigratedIsContract(v, Now());
      ghost var a := Now();
      var ids := DiscoveredUserIds();
      if ids.Err? {
        return Err(ids.error);
      }
      var failed, imported := LoadDiscovered(ids.value.0, v);
      MigratedIsContract(v, Now());
      failed := failed || failedRemovals || ids.value.1;
      if good {
        LoadsAreDone(v, a, Now(), ids.value.0);
      }
      if m.active.Some? && m.active.value !in m.suppressed {
        if good {
          KnownActiveIsListed(v, Now(), m.active.value);
        }
        var activated := Activate(m.active.value, v);
        MigratedIsContract(v, Now());
        if activated.Err? {
          return Err(activated.error);
        }
      }
      r := ImportAuthState(m, failed, imported, v);
    }

    method Activate(u: User, ghost v: State) returns (r: Result<(), string>)
      requires Migrated(v, Now())
      modifies this`document
      ensures Migrated(v, Now())
      ensures forall x | Imported(old(Now()), x) :: Imported(Now(), x)
      ensures old(Sound(Now())) ==> Sound(Now())
      ensures old(Done(v, Now())) ==> Done(v, Now())
      ensures healthy && old(Sound(Now())) && u in Meta(old(Now())).accounts ==> r.Ok?
      ensures r.Ok? ==> document.Written? && document.metadata.active == Some(u)
    {
      hide Migrated, Sound, Kept, Done;
      ghost var w := Now();
      if Sound(w) {
        SoundIsReadable(w);
      }
      r := SetActive(u);
      ActiveMigrates(v, w, Now());
      ActiveKeepsSound(w, Now());
      KeepsDone(v, w, Now());
    }

    method DeleteAuthState(ghost v: State)
      requires Migrated(v, Now())
      requires forall u | InAuthState(v, u) :: Imported(Now(), u) || Recorded(v, u)
      modifies this`authState
      ensures MigrateContract(v, Now()) && authState == None
    {
      hide Migrated, MigrateContract;
      DeleteMigrates(v, Now());
      authState := None;
    }
  }

  // ---- Whole histories ----

  datatype Op =
    | SaveOp(session: Session, ok: bool)
    | LoadOp(user: User, result: Result<Option<Session>, string>)
    | RemoveOp(user: User)
    | SetActiveOp
    | MigrateOp
    | Restart

  // What the operations above promise; a restart forgets only the in-process suppression.
  ghost predicate Step(v: State, op: Op, v': State) {
    match op
    case SaveOp(s, ok) =>
      && SaveEffect(v, v', s)
      && (ok ==> s.user !in v'.memory && (Blank(s.user) || s.user !in v'.asked))
      && (!ok ==> v'.memory == v.memory)
    case LoadOp(u, r) => LoadContract(v, v', u, r)
    case RemoveOp(u) => RemoveEffect(v, v', u)
    case SetActiveOp => ActiveEffect(v, v')
    case MigrateOp => MigrateContract(v, v')
    case Restart => v' == v.(memory := [])
  }

  ghost predicate History(states: seq<State>, ops: seq<Op>) {
    |states| == |ops| + 1 && forall i | 0 <= i < |ops| :: Step(states[i], ops[i], states[i + 1])
  }

  lemma StepGuarantees(v: State, op: Op, v': State)
    requires Step(v, op, v')
    ensures Guarantee(v, v')
  {
    match op
    case SaveOp(s, _) => SaveGuarantees(v, v', s);
    case RemoveOp(u) => RemoveGuarantees(v, v', u);
    case SetActiveOp => ActiveGuarantees(v, v');
    case _ =>
  }

  /** Nothing is lost over any history, restarts included: from its first to its last state, metadata
      stays consistent, recorded removals stay recorded, and a legacy grant is gone only if its user
      is durable or was removed. */
  lemma {:induction false} HistoryLosesNothing(states: seq<State>, ops: seq<Op>)
    requires History(states, ops)
    ensures Guarantee(states[0], states[|ops|])
    decreases |ops|
  {
    hide Guarantee, Step;
    if ops == [] {
      GuaranteeReflexive(states[0]);
    } else {
      var n := |ops| - 1;
      HistoryLosesNothing(states[..n + 1], ops[..n]);
      StepGuarantees(states[n], ops[n], states[n + 1]);
      GuaranteeTransitive(states[0], states[n], states[n + 1]);
    }
  }

  // What ends the in-process suppression of `u` before the operation's own effect.
  predicate Lifts(v: State, op: Op, u: User) {
    op.Restart? || (op.SaveOp? && op.ok && op.session.user == u) || (op.MigrateOp? && Lifted(v, u))
  }

  lemma StepKeepsSuppression(v: State, op: Op, v': State, u: User)
    requires Step(v, op, v') && u in v.memory && !Lifts(v, op, u)
    ensures u in v'.memory
  {
    hide Guarantee, KeepsStore, NoneRevived, Durable, InFile;
  }

  /** Removal is final in the process: after `remove(u)` has started, whatever failed, every load of
      `u` yields nothing until a save of `u` succeeds or a migration runs while `u` has a grant in
      `auth-state.json` and its removal is not on record. */
  lemma {:induction false} RemovedStaysRemoved(states: seq<State>, ops: seq<Op>, u: User, r: Result<Option<Session>, string>)
    requires |ops| >= 2 && History(states, ops) && ops[0] == RemoveOp(u) && ops[|ops| - 1] == LoadOp(u, r)
    requires forall i | 0 < i < |ops| - 1 :: !Lifts(states[i], ops[i], u)
    ensures r == Ok(None)
  {
    hide Guarantee, KeepsStore, NoneRevived, Lifts;
    var k := 1;
    assert Step(states[0], ops[0], states[1]);
    while k < |ops| - 1
      invariant 1 <= k <= |ops| - 1
      invariant u in states[k].memory
    {
      assert Step(states[k], ops[k], states[k + 1]);
      StepKeepsSuppression(states[k], ops[k], states[k + 1], u);
      k := k + 1;
    }
    assert Step(states[k], ops[k], states[k + 1]);
  }

  // A save of this very session of `u` is among the operations.
  ghost predicate WasSaved(ops: seq<Op>, u: User, s: Session) {
    s.user == u && exists i :: 0 <= i < |ops| && ops[i].SaveOp? && ops[i].session == s
  }

  // What the store has for `u` was there at the start, or somebody saved it.
  ghost predicate Sourced(start: State, ops: seq<Op>, now: State, u: User) {
    u in now.store ==>
      || (u in start.store && now.store[u] == start.store[u])
      || (now.store[u].Holds? && WasSaved(ops, u, now.store[u].session))
  }

  lemma StepKeepsEntry(v: State, op: Op, v': State, u: User)
    requires Step(v, op, v') && u in Meta(v).discarded && u in v'.store
    ensures (u in v.store && v'.store[u] == v.store[u])
            || (op.SaveOp? && op.session.user == u && v'.store[u] == Holds(op.session))
  {
    hide Guarantee, KeepsStore, Durable, InFile, InAuthState, MetaOk;
  }

  lemma {:induction false} EntriesStaySourced(states: seq<State>, ops: seq<Op>, u: User)
    requires History(states, ops) && u in Meta(states[0]).discarded
    ensures u in Meta(states[|ops|]).discarded && Sourced(states[0], ops, states[|ops|], u)
    decreases |ops|
  {
    hide Step, Guarantee;
    if ops != [] {
      var n := |ops| - 1;
      EntriesStaySourced(states[..n + 1], ops[..n], u);
      StepGuarantees(states[n], ops[n], states[n + 1]);
      GuaranteeKeepsDiscarded(states[n], states[n + 1], u);
      if u in states[n + 1].store {
        StepKeepsEntry(states[n], ops[n], states[n + 1], u);
        assert forall i | 0 <= i < n :: ops[..n][i] == ops[i];
      }
    }
  }

  lemma GuaranteeKeepsDiscarded(v: State, v': State, u: User)
    requires Guarantee(v, v') && u in Meta(v).discarded
    ensures u in Meta(v').discarded
  {
  }

  /** Once a removal is on record no later operation, save, migration or restart brings a legacy grant
      back: whatever a load of that user returns was in the secure store already, or is a session that
      was saved for the user since. */
  lemma DiscardedNeverReturns(states: seq<State>, ops: seq<Op>, u: User, r: Result<Option<Session>, string>)
    requires |ops| >= 1 && History(states, ops) && ops[|ops| - 1] == LoadOp(u, r)
    requires u in Meta(states[0]).discarded && r.Ok? && r.value.Some?
    ensures
      || (u in states[0].store && Decode(states[0].store[u], u) == r.value)
      || WasSaved(ops, u, r.value.value)
  {
    var n := |ops| - 1;
    assert Step(states[n], ops[n], states[n + 1]);
    EntriesStaySourced(states[..n + 1], ops[..n], u);
    assert forall i | 0 <= i < n :: ops[..n][i] == ops[i];
    hide Guarantee, KeepsStore, NoneRevived;
  }

  // A durable credential of a user who is neither removed nor to be removed.
  ghost predicate Safe(v: State, u: User) {
    Durable(v, u) && u !in v.asked && MetaOk(Meta(v))
  }

  lemma StepKeepsSafe(v: State, op: Op, v': State, u: User)
    requires Step(v, op, v') && Safe(v, u) && op != RemoveOp(u)
    ensures Safe(v', u)
  {
    StepGuarantees(v, op, v');
    hide KeepsStore, NoneRevived, InFile, InAuthState, NothingFor;
  }

  lemma StepKeepsCredential(v: State, op: Op, v': State, u: User)
    requires Step(v, op, v') && Safe(v, u) && op != RemoveOp(u)
    ensures u in v.store && u in v'.store
    ensures v'.store[u] == v.store[u] || (op.SaveOp? && op.session.user == u && v'.store[u] == Holds(op.session))
  {
    hide Guarantee, NoneRevived, InFile, InAuthState, NothingFor;
  }

  /** A credential that is durable stays durable over any history in which its user is not removed,
      whatever fails, whoever else is removed and however often the process restarts, and it stays the
      same one or becomes one that was saved for the user; and a user who was removed once is protected
      again from the next successful save. */
  lemma {:induction false} CredentialsAreKept(states: seq<State>, ops: seq<Op>, u: User)
    requires History(states, ops) && Safe(states[0], u) && forall i | 0 <= i < |ops| :: ops[i] != RemoveOp(u)
    ensures Safe(states[|ops|], u) && u in states[|ops|].store && Sourced(states[0], ops, states[|ops|], u)
    decreases |ops|
  {
    hide Step, Safe;
    if ops == [] {
      SafeIsStored(states[0], u);
    } else {
      var n := |ops| - 1;
      CredentialsAreKept(states[..n + 1], ops[..n], u);
      StepKeepsSafe(states[n], ops[n], states[n + 1], u);
      StepKeepsCredential(states[n], ops[n], states[n + 1], u);
      assert forall i | 0 <= i < n :: ops[..n][i] == ops[i];
    }
  }

  lemma SafeIsStored(v: State, u: User)
    requires Safe(v, u)
    ensures u in v.store
  {
  }

  /** A successful save makes its user's credential one of those. */
  lemma SavedIsSafe(v: State, v': State, s: Session)
    requires Step(v, SaveOp(s, true), v') && !Blank(s.user) && MetaOk(Meta(v))
    requires v'.store == v.store[s.user := Holds(s)] && v'.document == Written(SavedMeta(Meta(v), s.user))
    ensures Safe(v', s.user)
  {
    SaveGuarantees(v, v', s);
  }

  /** That condition is exact for a migration with nothing failing, and such a migration does undo the
      removal: a user suppressed in the process, with a grant in `auth-state.json` and no removal on
      record, is back afterwards, and the next load returns a session. */
  method MigrateThenLoad(vault: CredentialVault, u: User) returns (r: Result<Option<Session>, string>)
    requires vault.healthy && Sound(vault.Now()) && ActiveKnown(vault.Now())
    requires u in vault.memory && Lifted(vault.Now(), u)
    modifies vault
    ensures r.Ok? && r.value.Some? && r.value.value.user == u
  {
    hide Sound, ActiveKnown, Guarantee, KeepsStore, NoneRevived;
    ghost var v := vault.Now();
    var migrated := vault.Migrate();
    ghost var w := vault.Now();
    assert Imported(w, u) && !Recorded(w, u);
    DurableOwnFile(w, u);
    r := vault.Load(u);
  }

  lemma DurableOwnFile(v: State, u: User)
    requires Sound(v) && Durable(v, u)
    ensures OwnFile(v, u)
  {
    assert Known(v, u);
  }

  /** The whole failure on the operations themselves: a removal of a user with a grant in
      `auth-state.json` and nothing damaged, during which anything may fail. If its record was not
      written and nothing fails from then on, migrating brings the user back. */
  method RemoveThenMigrate(vault: CredentialVault, u: User) returns (recorded: bool, r: Result<Option<Session>, string>)
    requires Sound(vault.Now()) && ActiveKnown(vault.Now()) && Lifted(vault.Now(), u)
    modifies vault
    ensures recorded ==> u in Meta(vault.Now()).discarded
    ensures !recorded ==> r.Ok? && r.value.Some? && r.value.value.user == u
  {
    hide Sound, Guarantee, FileName;
    ghost var v := vault.Now();
    LegacyIsOwn(v, u);
    var removed := vault.Remove(u);
    RemoveKeepsSound(v, vault.Now(), u);
    recorded := vault.document.Written? && u in vault.document.metadata.discarded;
    r := Ok(None);
    if !recorded {
      RecordedOrUnchanged(v, vault.Now(), u);
      vault.healthy := true;
      r := MigrateThenLoad(vault, u);
    }
  }

  lemma LegacyIsOwn(v: State, u: User)
    requires Sound(v) && Lifted(v, u)
    ensures OwnFile(v, u)
  {
    assert Known(v, u);
  }

  // A removal either puts the user on record or leaves the document as it was.
  lemma RecordedOrUnchanged(v: State, x: State, u: User)
    requires RemoveEffect(v, x, u) && u !in Meta(x).discarded
    ensures ActiveKnown(v) ==> ActiveKnown(x)
    ensures Lifted(v, u) ==> Lifted(x, u)
    ensures u in x.memory
  {
    RemovedMetaForgets(Meta(v), u);
    assert x.document == v.document;
  }

  /** A removal whose record could not be written leads there: the user has one grant in
      `auth-state.json` and nothing is damaged. */
  lemma UnrecordedRemovalIsUndone(u: User, grant: nat)
    requires !Blank(u)
    ensures
      var start := State(Missing, map[], map[], Some(Sessions([Session(u, grant)], None)), [], {});
      var removed := start.(memory := [u], asked := {u});
      && Step(start, RemoveOp(u), removed)
      && Sound(removed) && ActiveKnown(removed) && u in removed.memory && Lifted(removed, u)
  {
    var s := Session(u, grant);
    var removed := State(Missing, map[], map[], Some(Sessions([s], None)), [u], {u});
    assert [s][0].user == u;
    assert InAuthState(removed, u);
  }
}
