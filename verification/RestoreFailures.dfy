/** Two inputs on which a restore over the registry of the back end does not give the market back: one on
    which it aborts, and one on which a user loses a refresh token. Only the user table holds rows. */
module RestoreFailures {
  import opened Basics
  import F = BackupFile
  import opened Restore
  import opened BackupRegistry

  function User(id: nat, market: nat, email: nat): F.Row { F.Row(id, Some(market), 0, {email}, 0, 0, 0) }

  function TableOf(model: nat, users: Table): Table { if model == USER then users else map[] }

  /** A database with an empty table for every model but the users. */
  function UsersOnly(users: Table): Db {
    map m: nat | m < |MODELS| :: TableOf(m, users)
  }

  const BACKED: Table := map[1 := User(1, 1, 10)]
  const CHANGED: Table := map[1 := User(1, 1, 11), 2 := User(2, 2, 10)]
  const SIGNED_IN: Table := map[1 := F.Row(1, Some(1), 0, {10}, 0, 5, 7)]
  const FILE: map<nat, seq<F.Row>> := map[USER := [User(1, 1, 10)]]

  /** What the proofs below use of the registry. */
  ghost predicate Listed(registry: seq<Entry>) {
    && |registry| == |MODELS|
    && (forall i | 0 <= i < |registry| :: registry[i].model == i)
    && registry[USER] == Entry(USER, OfMarket, false, true)
    && (forall i | 0 <= i < |registry| && registry[i].scope.ChildOf? :: registry[i].scope.parentModel < |MODELS|)
  }

  lemma RegistryIsListed()
    ensures Listed(Registry()) && WellFormed(Registry())
  {
    RegistryLists();
    RegistryIsWellFormed();
    forall i | 0 <= i < |Registry()| && Registry()[i].scope.ChildOf? ensures Registry()[i].scope.parentModel < |MODELS| {
      ParentsComeFirst(i);
    }
  }

  lemma UsersOnlyIsSound(registry: seq<Entry>, users: Table)
    requires Listed(registry) && TableOk(users)
    ensures HasTables(UsersOnly(users), registry) && ParentsExist(UsersOnly(users), registry)
    ensures forall i | 0 <= i < |registry| && i != USER ::
              OwnedRows(UsersOnly(users), registry[i], 1) == ForeignRows(UsersOnly(users), registry[i], 1) == map[]
  {
    assert USER < |MODELS| && registry[USER].scope == OfMarket;
  }

  /** One user of market 1 is backed up. */
  lemma OneUserIsBackedUp(registry: seq<Entry>, users: Table)
    requires Listed(registry) && TableOk(users)
    requires OwnedRows(UsersOnly(users), registry[USER], 1).Keys == {1}
    requires 1 in users && Stripped(registry[USER], users[1]) == User(1, 1, 10)
    ensures IsBackup(UsersOnly(users), registry, 1, FILE)
  {
    UsersOnlyIsSound(registry, users);
    var db, rows := UsersOnly(users), F.RowsOf(FILE, USER);
    assert rows == [User(1, 1, 10)];
    assert 1 in OwnedRows(db, registry[USER], 1);
    assert Dumps(db, registry[USER], 1, rows);
    forall i | 0 <= i < |registry|
      ensures registry[i].model in db && Dumps(db, registry[i], 1, F.RowsOf(FILE, registry[i].model))
    {
      if i != USER { assert F.RowsOf(FILE, i) == []; }
    }
  }

  lemma AddressIsTaken(registry: seq<Entry>)
    requires Listed(registry)
    ensures TableOk(CHANGED) && ForeignRows(UsersOnly(CHANGED), registry[USER], 1) == map[2 := User(2, 2, 10)]
    ensures !HasRoom(UsersOnly(CHANGED), registry[USER], 1, F.RowsOf(FILE, USER))
  {
    var left, r := ForeignRows(UsersOnly(CHANGED), registry[USER], 1), User(1, 1, 10);
    assert left == map[2 := User(2, 2, 10)];
    assert 2 in left && left[2].keys * r.keys == {10};
    assert Clashes(left, r) && r in F.RowsOf(FILE, USER);
  }

  ghost predicate NoIdIsTaken(db: Db, registry: seq<Entry>, market: nat, file: map<nat, seq<F.Row>>) {
    forall i | 0 <= i < |registry| ::
      registry[i].model in db
      && forall r | r in F.RowsOf(file, registry[i].model) :: r.id !in ForeignRows(db, registry[i], market)
  }

  lemma NoIdOfTheFileIsTaken(registry: seq<Entry>)
    requires Listed(registry)
    ensures NoIdIsTaken(UsersOnly(CHANGED), registry, 1, FILE)
  {
    AddressIsTaken(registry);
    forall i, r | 0 <= i < |registry| && r in F.RowsOf(FILE, registry[i].model)
      ensures r.id !in ForeignRows(UsersOnly(CHANGED), registry[i], 1)
    {
      assert i == USER;
    }
  }

  lemma TakenEmailIsNoRoom(registry: seq<Entry>, locked: int)
    requires Listed(registry) && WellFormed(registry) && IsBackup(UsersOnly(BACKED), registry, 1, FILE)
    ensures RestoreMarket(UsersOnly(CHANGED), registry, 1, FILE, locked).Err?
  {
    AddressIsTaken(registry);
    UsersOnlyIsSound(registry, CHANGED);
    UsersOnlyIsSound(registry, BACKED);
    RestoreCommits(UsersOnly(CHANGED), UsersOnly(BACKED), registry, 1, FILE, locked);
    assert !HasRoom(UsersOnly(CHANGED), registry[USER], 1, F.RowsOf(FILE, registry[USER].model));
  }

  lemma BackedUserIsBackedUp(registry: seq<Entry>)
    requires Listed(registry)
    ensures TableOk(BACKED) && IsBackup(UsersOnly(BACKED), registry, 1, FILE)
  {
    assert OwnedRows(UsersOnly(BACKED), registry[USER], 1) == BACKED;
    OneUserIsBackedUp(registry, BACKED);
  }

  /** A concrete failure: after the backup of market 1 its user changes e-mail address from 10 to 11, and
      a user of market 2 takes 10. No id of the file is taken and no parent is missing, yet the restore
      aborts. */
  lemma TakenEmailAborts(locked: int)
    ensures HasTables(UsersOnly(CHANGED), Registry()) && ParentsExist(UsersOnly(CHANGED), Registry())
    ensures HasTables(UsersOnly(BACKED), Registry()) && IsBackup(UsersOnly(BACKED), Registry(), 1, FILE)
    ensures NoIdIsTaken(UsersOnly(CHANGED), Registry(), 1, FILE)
    ensures RestoreMarket(UsersOnly(CHANGED), Registry(), 1, FILE, locked).Err?
  {
    RegistryIsListed();
    AddressIsTaken(Registry());
    BackedUserIsBackedUp(Registry());
    UsersOnlyIsSound(Registry(), CHANGED);
    UsersOnlyIsSound(Registry(), BACKED);
    NoIdOfTheFileIsTaken(Registry());
    TakenEmailIsNoRoom(Registry(), locked);
  }

  lemma SignedInUserIsBackedUp(registry: seq<Entry>)
    requires Listed(registry)
    ensures TableOk(SIGNED_IN) && HasTables(UsersOnly(SIGNED_IN), registry) && IsBackup(UsersOnly(SIGNED_IN), registry, 1, FILE)
  {
    assert OwnedRows(UsersOnly(SIGNED_IN), registry[USER], 1) == SIGNED_IN;
    UsersOnlyIsSound(registry, SIGNED_IN);
    OneUserIsBackedUp(registry, SIGNED_IN);
  }

  /** The users as they come back: with their passwords and without their tokens. */
  const COME_BACK: Table := map[1 := F.Row(1, Some(1), 0, {10}, 0, 5, 0)]

  lemma UsersComeBack(registry: seq<Entry>, after: Db)
    requires Listed(registry) && HasTables(UsersOnly(SIGNED_IN), registry) && AllBack(UsersOnly(SIGNED_IN), after, registry, 1)
    ensures after == UsersOnly(COME_BACK)
  {
    var db := UsersOnly(SIGNED_IN);
    assert Forgotten(db, registry[USER], 1) == COME_BACK;
    forall m: nat | m < |MODELS| ensures m in after && after[m] == TableOf(m, COME_BACK) {
      assert registry[m].model == m && after[m] == Forgotten(db, registry[m], 1);
    }
  }

  /** A concrete loss: a user with password 5 and refresh token 7 is backed up and restored, and comes back
      with the password only. */
  lemma TokenIsLost(locked: int) returns (after: Db)
    ensures IsBackup(UsersOnly(SIGNED_IN), Registry(), 1, FILE)
    ensures RestoreMarket(UsersOnly(SIGNED_IN), Registry(), 1, FILE, locked) == Ok(after)
    ensures after == UsersOnly(COME_BACK)
  {
    RegistryIsListed();
    SignedInUserIsBackedUp(Registry());
    after := BackupThenRestoreIsIdentity(UsersOnly(SIGNED_IN), Registry(), 1, FILE, locked);
    UsersComeBack(Registry(), after);
  }
}
